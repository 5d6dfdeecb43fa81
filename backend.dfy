/** `backend.py`, the Flask service behind `app.py`: the `/job_suggestor`,
    `/mock_interview`, `/mock/evaluate` and `/set_reminder` routes. A field
    read with `data.get(name, "")` is a `Field`, since a `null` and a missing
    name differ there; a field whose missing and `null` cases behave alike is
    an `Option<string>` that is `None` for both. A route result `Err` is an
    exception that escapes the view function, which Flask answers with its
    own 500 page. */
module Backend {
  import opened Base
  import opened Text
  import opened Json
  import opened Services
  import opened Parsing
  import Standalone

  /** A text field of the request body: a missing name, `null`, or a string. */
  datatype Field = Absent | JsonNull | Given(text: string)

  /** `data.get(name, "")`: the default only replaces a missing name, so a
      `null` reads as `None`. */
  function GetOrEmpty(f: Field): (r: Option<string>)
    ensures r.None? <==> f.JsonNull?
    ensures f.Given? ==> r == Some(f.text)
    ensures f.Absent? ==> r == Some("")
  {
    match f
    case Absent => Some("")
    case JsonNull => None
    case Given(s) => Some(s)
  }

  /** What an f-string makes of that value: `None` prints as "None". */
  function Shown(f: Field): string {
    match GetOrEmpty(f)
    case None => "None"
    case Some(s) => s
  }

  // ---------------------------------------------------------- /job_suggestor

  /** `job_suggestor()` (backend.py:113-154). The model call sits before the
      `try`, so its exception escapes the route: `Err`. */
  function JobSuggestorRoute(profile: Field, model: Model, loads: Loads): (r: Result<HttpResponse>)
    ensures model(JobSuggestions(Shown(profile))).Raised? <==> r.Err?
    ensures r.Err? ==> r.error == model(JobSuggestions(Shown(profile))).message
    ensures r.Ok? ==> (r.value.status == 200
      && r.value.body == JobsPayload(model(JobSuggestions(Shown(profile))).text, loads))
  {
    match model(JobSuggestions(Shown(profile)))
    case Raised(e) => Err(e)
    case Completed(raw) => Ok(HttpResponse(200, JobsPayload(raw, loads)))
  }

  /** The route and `main.py`'s helper give the same jobs for the same
      profile and model; the location the helper takes changes nothing. */
  lemma JobSuggestorAgrees(profile: string, location: string, model: Model, loads: Loads)
    ensures JobSuggestorRoute(Given(profile), model, loads).Err?
      <==> Standalone.JobSuggestor(profile, location, model, loads).Err?
    ensures JobSuggestorRoute(Given(profile), model, loads).Ok? ==>
      JobSuggestorRoute(Given(profile), model, loads).value.body
        == Standalone.JobSuggestor(profile, location, model, loads).value
  {
  }

  /** A `null` profile reaches the model as the text "None", not as an
      empty profile. */
  lemma NullProfileShownAsNone(model: Model, loads: Loads)
    ensures JobSuggestorRoute(JsonNull, model, loads) == JobSuggestorRoute(Given("None"), model, loads)
  {
  }

  // --------------------------------------------------------- /mock_interview

  /** The three questions used when generation fails (backend.py:186-190). */
  function CannedQuestions(role: string): seq<string> {
    [ "What motivates you to apply for " + role + "?",
      "Describe a challenging project you handled in " + role + "-related tasks.",
      "How do you keep your skills updated for " + role + "?" ]
  }

  /** `[q.strip() for q in lines if q.strip()]`. */
  function StrippedLines(lines: seq<string>): (r: seq<string>)
    ensures |r| <= |lines|
    ensures forall i :: 0 <= i < |r| ==> IsStripped(r[i]) && !IsBlank(r[i])
  {
    if lines == [] then [] else StrippedLine(lines[0]) + StrippedLines(lines[1..])
  }

  /** What the comprehension makes of one line: its strip, unless empty. */
  function StrippedLine(line: string): (r: seq<string>)
    ensures |r| <= 1
    ensures forall i :: 0 <= i < |r| ==> IsStripped(r[i]) && !IsBlank(r[i])
  {
    var q := Strip(line);
    if q == [] then []
    else
      assert !IsSpace(q[0]);
      [q]
  }

  /** The comprehension keeps the order of the lines. */
  lemma {:induction false} StrippedLinesAppend(a: seq<string>, b: seq<string>)
    ensures StrippedLines(a + b) == StrippedLines(a) + StrippedLines(b)
    decreases |a|
  {
    if a != [] {
      var h, t := a[0], a[1..];
      assert a == [h] + t;
      AppendAssoc([h], t, b);
      StrippedLinesCons(h, t + b);
      StrippedLinesCons(h, t);
      StrippedLinesAppend(t, b);
      AppendAssoc(StrippedLine(h), StrippedLines(t), StrippedLines(b));
    } else {
      assert a + b == b;
    }
  }

  lemma StrippedLinesCons(line: string, rest: seq<string>)
    ensures StrippedLines([line] + rest) == StrippedLine(line) + StrippedLines(rest)
  {
    assert ([line] + rest)[1..] == rest;
  }

  /** Lines that are already stripped and not blank all come through as
      they are. */
  lemma {:induction false} StrippedLinesOfStripped(lines: seq<string>)
    requires AllPlain(lines)
    ensures StrippedLines(lines) == lines
    decreases |lines|
  {
    if lines != [] {
      var line, rest := lines[0], lines[1..];
      assert [line] + rest == lines;
      PlainAt(lines, 0);
      StrippedLinesOfStripped(rest);
      StrippedLinesCons(line, rest);
    }
  }

  /** Every line stripped, not blank and without a line boundary. */
  predicate AllPlain(lines: seq<string>) {
    lines == [] || (IsStripped(lines[0]) && !IsBlank(lines[0]) && NoBreaks(lines[0]) && AllPlain(lines[1..]))
  }

  lemma {:induction false} AllPlainEach(lines: seq<string>)
    requires AllPlain(lines)
    ensures forall i :: 0 <= i < |lines| ==> IsStripped(lines[i]) && !IsBlank(lines[i]) && NoBreaks(lines[i])
    decreases |lines|
  {
    if lines != [] {
      AllPlainEach(lines[1..]);
      forall i | 1 <= i < |lines|
        ensures IsStripped(lines[i]) && !IsBlank(lines[i]) && NoBreaks(lines[i])
      {
        assert lines[i] == lines[1..][i - 1];
      }
    }
  }

  /** The `questions` value for a role that is not empty (backend.py:165-190):
      the decoded reply when it opens with "[", its non-blank lines
      otherwise, and the canned questions when the model or the parse
      raises. */
  function GeneratedQuestions(role: string, model: Model, loads: Loads): (v: Value)
    ensures model(InterviewQuestions(role, FlaskBackend)).Raised? ==> v == Array(Strings(CannedQuestions(role)))
    ensures model(InterviewQuestions(role, FlaskBackend)).Completed? ==>
      var text := Strip(model(InterviewQuestions(role, FlaskBackend)).text);
      (StartsWith(text, "[") && loads(text).Loaded? ==> v == loads(text).value)
      && (StartsWith(text, "[") && loads(text).DecodeError? ==> v == Array(Strings(CannedQuestions(role))))
      && (!StartsWith(text, "[") ==>
            v.Array? && |v.items| <= |SplitLines(text)|
            && forall i :: 0 <= i < |v.items| ==>
                 v.items[i].Str? && IsStripped(v.items[i].s) && !IsBlank(v.items[i].s))
  {
    match model(InterviewQuestions(role, FlaskBackend))
    case Raised(_) => Array(Strings(CannedQuestions(role)))
    case Completed(reply) =>
      var text := Strip(reply);
      if StartsWith(text, "[") then
        match loads(text)
        case Loaded(v) => v
        case DecodeError(_) => Array(Strings(CannedQuestions(role)))
      else
        Array(Strings(StrippedLines(SplitLines(text))))
  }

  /** `mock_interview()` (backend.py:157-192): always status 200 and a body
      with the single member `questions`; an empty role gets `[]`. */
  function MockInterviewRoute(role: Option<string>, model: Model, loads: Loads): (r: HttpResponse)
    ensures r.status == 200 && r.body.Object? && |r.body.entries| == 1 && r.body.entries[0].0 == "questions"
    ensures role.GetOr("") == [] ==> r.body.entries[0].1 == Array([])
    ensures role.GetOr("") != [] ==> r.body.entries[0].1 == GeneratedQuestions(role.GetOr(""), model, loads)
  {
    var name := role.GetOr("");
    var questions := if name == [] then Array([]) else GeneratedQuestions(name, model, loads);
    HttpResponse(200, Object([("questions", questions)]))
  }

  /** The `questions` member of a route response. */
  function QuestionsIn(r: HttpResponse): Value
    requires r.body.Object? && |r.body.entries| >= 1
  {
    r.body.entries[0].1
  }

  /** An empty or missing role is answered without the model: the response
      is the same whatever the model and the parser do. */
  lemma EmptyRoleIgnoresModel(role: Option<string>, m1: Model, l1: Loads, m2: Model, l2: Loads)
    requires role.GetOr("") == []
    ensures MockInterviewRoute(role, m1, l1) == MockInterviewRoute(role, m2, l2)
    ensures QuestionsIn(MockInterviewRoute(role, m1, l1)) == Array([])
  {
  }

  /** A role of blanks only is not rejected: it reaches the model, and a
      failing model gives the three canned questions built on it. */
  lemma BlankRoleReachesModel(role: string, model: Model, loads: Loads)
    requires role != [] && IsBlank(role)
    requires model(InterviewQuestions(role, FlaskBackend)).Raised?
    ensures QuestionsIn(MockInterviewRoute(Some(role), model, loads)) == Array(Strings(CannedQuestions(role)))
    ensures |QuestionsIn(MockInterviewRoute(Some(role), model, loads)).items| == 3
  {
  }

  /** A reply that opens with "[" but does not decode gives exactly the
      three canned questions, each naming the role. */
  lemma BadArrayGivesCanned(role: string, model: Model, loads: Loads, reply: string)
    requires role != []
    requires model(InterviewQuestions(role, FlaskBackend)) == Completed(reply)
    requires StartsWith(Strip(reply), "[") && loads(Strip(reply)).DecodeError?
    ensures QuestionsIn(MockInterviewRoute(Some(role), model, loads)) == Array(Strings(CannedQuestions(role)))
    ensures forall i :: 0 <= i < 3 ==> Occurs(CannedQuestions(role)[i], role)
  {
    var cs := CannedQuestions(role);
    assert OccursAt(cs[0], role, |"What motivates you to apply for "|);
    assert OccursAt(cs[1], role, |"Describe a challenging project you handled in "|);
    assert OccursAt(cs[2], role, |"How do you keep your skills updated for "|);
  }

  /** Plain lines joined by "\n" come back one question per line, in order,
      as long as the first does not open with "[". */
  lemma LinesRoundTrip(role: string, model: Model, loads: Loads, lines: seq<string>)
    requires role != []
    requires lines != [] && AllPlain(lines) && lines[0][0] != '['
    requires model(InterviewQuestions(role, FlaskBackend)) == Completed(Join(lines, "\n"))
    ensures QuestionsIn(MockInterviewRoute(Some(role), model, loads)) == Array(Strings(lines))
  {
    JoinedPlainLines(lines);
    LinesOfJoined(lines);
    StrippedLinesOfStripped(lines);
  }

  /** Plain lines joined by "\n" make a text that strip leaves alone and
      that does not open with "[". */
  lemma JoinedPlainLines(lines: seq<string>)
    requires lines != [] && AllPlain(lines) && lines[0][0] != '['
    ensures Strip(Join(lines, "\n")) == Join(lines, "\n")
    ensures !StartsWith(Join(lines, "\n"), "[")
  {
    PlainAt(lines, 0);
    PlainAt(lines, |lines| - 1);
    JoinEndChars(lines, "\n");
    var j := Join(lines, "\n");
    assert IsStripped(j);
    assert j[..1][0] == j[0];
  }

  /** One line of a plain list is stripped and not empty. */
  lemma {:induction false} PlainAt(lines: seq<string>, i: nat)
    requires AllPlain(lines) && i < |lines|
    ensures IsStripped(lines[i]) && lines[i] != []
    decreases i
  {
    if i > 0 {
      PlainAt(lines[1..], i - 1);
    }
  }

  lemma LinesOfJoined(lines: seq<string>)
    requires lines != [] && AllPlain(lines)
    ensures SplitLines(Join(lines, "\n")) == lines
  {
    AllPlainEach(lines);
    PlainAt(lines, |lines| - 1);
    SplitLinesOfJoin(lines);
  }

  /** No fence is removed here: a fenced reply gives its fence lines as
      questions of their own. */
  lemma FenceLinesKept(role: string, model: Model, loads: Loads, lines: seq<string>)
    requires role != []
    requires AllPlain(lines)
    requires model(InterviewQuestions(role, FlaskBackend)) == Completed(Join([JsonFence] + lines + [Fence], "\n"))
    ensures QuestionsIn(MockInterviewRoute(Some(role), model, loads))
      == Array(Strings([JsonFence] + lines + [Fence]))
  {
    FencedPlain(lines);
    LinesRoundTrip(role, model, loads, [JsonFence] + lines + [Fence]);
  }

  lemma FencedPlain(lines: seq<string>)
    requires AllPlain(lines)
    ensures AllPlain([JsonFence] + lines + [Fence])
  {
    AllPlainAppend([JsonFence], lines);
    AllPlainAppend([JsonFence] + lines, [Fence]);
  }

  lemma {:induction false} AllPlainAppend(a: seq<string>, b: seq<string>)
    requires AllPlain(a) && AllPlain(b)
    ensures AllPlain(a + b)
    decreases |a|
  {
    if a != [] {
      assert (a + b)[0] == a[0];
      assert (a + b)[1..] == a[1..] + b;
      AllPlainAppend(a[1..], b);
    } else {
      assert a + b == b;
    }
  }

  // ---------------------------------------------------------- /mock/evaluate

  /** The request `evaluate_answer()` sends to the model. */
  function EvaluationRequest(question: Field, transcript: Field, resumeText: Field): Request {
    AnswerEvaluation(Shown(question), Shown(transcript), Shown(resumeText), FlaskBackend)
  }

  /** `evaluate_answer()` (backend.py:194-232): a `null` transcript makes
      `transcript.strip()` raise before the `try`, so the exception escapes;
      otherwise 400 for a blank answer, 500 when the model raises, and 200
      with the decoded reply or the zero-score record. */
  function EvaluateRoute(question: Field, transcript: Field, resumeText: Field,
                         model: Model, loads: Loads): (r: Result<HttpResponse>)
    ensures r.Err? <==> transcript.JsonNull?
    ensures r.Err? ==> r.error == "'NoneType' object has no attribute 'strip'"
    ensures !transcript.JsonNull? && IsBlank(Shown(transcript)) ==>
      r == Ok(HttpResponse(400, ErrorRecord("No answer provided")))
    ensures (!transcript.JsonNull? && !IsBlank(Shown(transcript))
             && model(EvaluationRequest(question, transcript, resumeText)).Raised?) ==>
      r == Ok(HttpResponse(500, ErrorRecord(model(EvaluationRequest(question, transcript, resumeText)).message)))
    ensures r.Ok? ==> r.value.status == 200 || r.value.status == 400 || r.value.status == 500
    ensures (r.Ok? && r.value.status == 200) <==>
      !transcript.JsonNull? && !IsBlank(Shown(transcript))
      && model(EvaluationRequest(question, transcript, resumeText)).Completed?
    ensures r.Ok? && r.value.status == 500 ==>
      model(EvaluationRequest(question, transcript, resumeText)).Raised?
      && r.value.body == ErrorRecord(model(EvaluationRequest(question, transcript, resumeText)).message)
    ensures r.Ok? && r.value.status == 200 ==>
      r.value.body == ParseEvaluation(model(EvaluationRequest(question, transcript, resumeText)).text, loads)
  {
    match GetOrEmpty(transcript)
    case None => Err("'NoneType' object has no attribute 'strip'")
    case Some(answer) =>
      if IsBlank(answer) then Ok(HttpResponse(400, ErrorRecord("No answer provided")))
      else
        match model(EvaluationRequest(question, transcript, resumeText))
        case Raised(e) => Ok(HttpResponse(500, ErrorRecord(e)))
        case Completed(raw) => Ok(HttpResponse(200, ParseEvaluation(raw, loads)))
  }

  /** For the same model reply to the two prompts, the route's body is what
      `main.py`'s `evaluate_answer` returns for the same question and answer
      with no resume text. */
  lemma EvaluateAgrees(question: string, transcript: string, model: Model, loads: Loads)
    requires model(AnswerEvaluation(question, transcript, "", FlaskBackend))
      == model(AnswerEvaluation(question, transcript, "", StreamlitApp))
    ensures EvaluateRoute(Given(question), Given(transcript), Absent, model, loads).Ok?
    ensures EvaluateRoute(Given(question), Given(transcript), Absent, model, loads).value.body
      == Standalone.EvaluateAnswer(question, transcript, model, loads)
  {
  }

  /** A `null` question or resume text reaches the model as the text
      "None", unlike a missing one. */
  lemma NullFieldsShownAsNone(transcript: Field)
    ensures EvaluationRequest(JsonNull, transcript, JsonNull).question == "None"
    ensures EvaluationRequest(JsonNull, transcript, JsonNull).resumeText == "None"
    ensures EvaluationRequest(Absent, transcript, Absent).question == ""
  {
  }

  /** A reply that does not decode is still a success, with zero scores and
      the reply as feedback. */
  lemma UnparsedReplyScoresZero(question: Field, transcript: Field, resumeText: Field,
                                model: Model, loads: Loads, raw: string)
    requires !transcript.JsonNull? && !IsBlank(Shown(transcript))
    requires model(EvaluationRequest(question, transcript, resumeText)) == Completed(raw)
    requires loads(raw).DecodeError?
    ensures var r := EvaluateRoute(question, transcript, resumeText, model, loads);
      r.Ok? && r.value.status == 200 && Get(r.value.body.entries, "score") == Some(Int(0))
      && Get(r.value.body.entries, "feedback") == Some(Str(raw))
  {
  }

  // ----------------------------------------------------------- /set_reminder

  /** `not field` for a text field of the request. */
  predicate Missing(field: Option<string>) {
    field.None? || field.value == []
  }

  /** `set_reminder()` up to the scheduling (backend.py:234-252). */
  function SetReminderRoute(text: Option<string>, email: Option<string>, time: Option<string>,
                            fromIso: FromIso): (r: HttpResponse)
    ensures Missing(text) || Missing(email) || Missing(time) ==>
      r == HttpResponse(400, ErrorRecord("Missing parameters"))
    ensures r.status == 200 <==>
      !Missing(text) && !Missing(email) && !Missing(time) && fromIso(time.value).Some?
    ensures r.status != 200 ==> r.status == 400 && r.body.Object? && Contains(r.body, "error") == Some(true)
    ensures !Missing(text) && !Missing(email) && !Missing(time) && fromIso(time.value).None? ==>
      r.body == ErrorRecord("Invalid isoformat string: " + time.value)
    ensures r.status == 200 ==>
      r.body == Object([("message", Str("Reminder scheduled for " + fromIso(time.value).value.display
                                        + " to " + email.value))])
  {
    if Missing(text) || Missing(email) || Missing(time) then
      HttpResponse(400, ErrorRecord("Missing parameters"))
    else
      match fromIso(time.value)
      case None => HttpResponse(400, ErrorRecord("Invalid isoformat string: " + time.value))
      case Some(when) =>
        HttpResponse(200, Object([("message", Str("Reminder scheduled for " + when.display + " to " + email.value))]))
  }

}
