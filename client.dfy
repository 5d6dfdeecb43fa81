/** `app.py`, the Streamlit client of the Flask backend: the Mock Interview
    page, the transcript shown after speech-to-text and the Notifier guard.
    A backend call is `None` when `safe_post_json` caught an exception (the
    backend was unreachable); otherwise it is the status and decoded body.
    A `.get` on a body that is not a JSON object raises `AttributeError`,
    which stops the script before the session is touched. */
module Client {
  import opened Base
  import opened Text
  import opened Json
  import opened Services
  import opened Parsing
  import Session
  import Backend

  // ------------------------------------------------------ Mock Interview page

  /** The questions "Start Mock Interview" installs (app.py:216-234), or
      `None` when the page only warns or reports an error. */
  function StartDecision(role: string, resp: Option<HttpResponse>): (r: Option<seq<Value>>)
    ensures IsBlank(role) ==> r.None?
    ensures r.Some? <==>
      !IsBlank(role) && resp.Some? && resp.value.status == 200 && resp.value.body.Object?
      && Get(resp.value.body.entries, "questions").GetOr(Array([])).Array?
      && Get(resp.value.body.entries, "questions").GetOr(Array([])).items != []
    ensures r.Some? ==> r.value != [] && Get(resp.value.body.entries, "questions") == Some(Array(r.value))
  {
    if IsBlank(role) then None
    else
      match resp
      case None => None
      case Some(HttpResponse(status, body)) =>
        if status != 200 || !body.Object? then None
        else
          match Get(body.entries, "questions").GetOr(Array([]))
          case Array(items) => if items == [] then None else Some(items)
          case _ => None
  }

  /** The result "Submit Answer" appends (app.py:254-277): the decoded body
      of a 200 response, whatever it holds. */
  function SubmitDecision(answer: string, resp: Option<HttpResponse>): (r: Option<Value>)
    ensures r.Some? <==> !IsBlank(answer) && resp.Some? && resp.value.status == 200
    ensures r.Some? ==> r.value == resp.value.body
  {
    if IsBlank(answer) then None
    else
      match resp
      case Some(HttpResponse(200, body)) => Some(body)
      case _ => None
  }

  /** One press of "Start Mock Interview"; `resp` is the backend's answer to
      the request the page sends for a non-blank role. */
  method PressStart(session: Session.InterviewSession<Value, Value>, role: string, resp: Option<HttpResponse>)
    modifies session
    ensures session.State() ==
      (match StartDecision(role, resp)
       case Some(qs) => Session.Started(qs)
       case None => old(session.State()))
  {
    var decision := StartDecision(role, resp);
    if decision.Some? {
      session.Start(decision.value);
    }
  }

  /** One press of "Submit Answer" while a question is on screen. */
  method PressSubmit(session: Session.InterviewSession<Value, Value>, answer: string, resp: Option<HttpResponse>)
    requires Session.Showing(session.State())
    modifies session
    ensures session.State() ==
      (match SubmitDecision(answer, resp)
       case Some(res) => Session.Answered(old(session.State()), res)
       case None => old(session.State()))
  {
    var decision := SubmitDecision(answer, resp);
    if decision.Some? {
      session.Submit(decision.value);
    }
  }

  /** When the model fails, the backend's canned questions start the
      interview, three of them. */
  lemma CannedQuestionsStart(role: string, model: Model, loads: Loads)
    requires !IsBlank(role)
    requires model(InterviewQuestions(role, FlaskBackend)).Raised?
    ensures StartDecision(role, Some(Backend.MockInterviewRoute(Some(role), model, loads)))
      == Some(Strings(Backend.CannedQuestions(role)))
  {
    assert role != [];
  }

  /** Plain answer lines from the model become the session's questions,
      one per line, through the backend and the page. */
  lemma LinesStart(role: string, model: Model, loads: Loads, lines: seq<string>)
    requires !IsBlank(role)
    requires lines != [] && Backend.AllPlain(lines) && lines[0][0] != '['
    requires model(InterviewQuestions(role, FlaskBackend)) == Completed(Join(lines, "\n"))
    ensures StartDecision(role, Some(Backend.MockInterviewRoute(Some(role), model, loads)))
      == Some(Strings(lines))
  {
    assert role != [];
    Backend.LinesRoundTrip(role, model, loads, lines);
  }

  /** The page records an evaluation exactly when the backend's model
      answered; a model failure (status 500) records nothing. */
  lemma SubmitRecordsEvaluation(question: string, answer: string, model: Model, loads: Loads)
    ensures Backend.EvaluateRoute(Backend.Given(question), Backend.Given(answer), Backend.Given(""), model, loads).Ok?
    ensures SubmitDecision(answer, Some(Backend.EvaluateRoute(Backend.Given(question), Backend.Given(answer), Backend.Given(""), model, loads).value)).Some?
      <==> !IsBlank(answer) && model(AnswerEvaluation(question, answer, "", FlaskBackend)).Completed?
  {
  }

  // ----------------------------------------------------------- Speech-to-Text

  /** The transcript shown (app.py:312-313): `transcript` if truthy, else
      `text` if truthy, else "". `None` when the call failed or the status
      is not 200 (the page reports an error) or the body is not an object. */
  function DisplayedTranscript(resp: Option<HttpResponse>): (r: Option<Value>)
    ensures r.Some? <==> resp.Some? && resp.value.status == 200 && resp.value.body.Object?
    ensures r.Some? ==>
      var e := resp.value.body.entries;
      (Truthy(Get(e, "transcript").GetOr(Null)) ==> r.value == Get(e, "transcript").value)
      && ((!Truthy(Get(e, "transcript").GetOr(Null)) && Truthy(Get(e, "text").GetOr(Null)))
          ==> r.value == Get(e, "text").value)
      && ((!Truthy(Get(e, "transcript").GetOr(Null)) && !Truthy(Get(e, "text").GetOr(Null)))
          ==> r.value == Str(""))
  {
    match resp
    case Some(HttpResponse(200, Object(e))) =>
      var transcript := Get(e, "transcript").GetOr(Null);
      var text := Get(e, "text").GetOr(Null);
      Some(if Truthy(transcript) then transcript else if Truthy(text) then text else Str(""))
    case _ => None
  }

  // ------------------------------------------------------------------ Notifier

  /** The JSON body posted to `/set_reminder`. */
  datatype ReminderRequest = ReminderRequest(text: string, email: string, time: string)

  /** "Set Reminder" (app.py:327-338): the request sent, or `None` when the
      text or the address is blank. `iso` is `isoformat()` of today's date
      at the chosen time. */
  function NotifierRequest(text: string, email: string, iso: string): (r: Option<ReminderRequest>)
    ensures r.None? <==> IsBlank(text) || IsBlank(email)
    ensures r.Some? ==> r.value == ReminderRequest(text, email, iso)
  {
    if IsBlank(text) || IsBlank(email) then None
    else Some(ReminderRequest(text, email, iso))
  }

  /** The page's guard is at least as strict as the backend's: a request it
      sends is never refused for missing parameters, and it is scheduled
      exactly when the time parses. */
  lemma NotifierNeverMissing(text: string, email: string, iso: string, fromIso: FromIso)
    requires iso != []
    requires NotifierRequest(text, email, iso).Some?
    ensures var q := NotifierRequest(text, email, iso).value;
      var r := Backend.SetReminderRoute(Some(q.text), Some(q.email), Some(q.time), fromIso);
      r.body != ErrorRecord("Missing parameters")
      && (r.status == 200 <==> fromIso(iso).Some?)
  {
    if fromIso(iso).None? {
      assert ("Invalid isoformat string: " + iso)[0] == 'I';
      assert ErrorRecord("Invalid isoformat string: " + iso) != ErrorRecord("Missing parameters")
        by { assert Str("Invalid isoformat string: " + iso) != Str("Missing parameters"); }
    }
  }
}
