/** The outside world as the career-mentor code meets it: the Gemini model,
    the HTTP responses of the Flask backend and the ISO-8601 parser. Each is
    a parameter of the operations that use it, so a property proved for every
    such parameter holds whatever the service does. */
module Services {
  import opened Base
  import Json

  /** What the code asks the model for. The prompt wording is abstracted to
      the inputs it interpolates and, where `main.py` and `backend.py` word
      the same request differently, to the program that sends it. */
  datatype Request =
    | InterviewQuestions(role: string, caller: Caller)
    | JobSuggestions(profile: string)
    | AnswerEvaluation(question: string, transcript: string, resumeText: string, caller: Caller)

  /** The program whose prompt text is sent. The two interview-question
      prompts differ throughout; the two evaluation prompts differ by an
      empty line after the resume context. A model may answer different
      prompts differently. The two job prompts are the same text. */
  datatype Caller = StreamlitApp | FlaskBackend

  /** `response.text` after `generate_content`, or the message of the
      exception raised by the call or by reading `.text`. */
  datatype Reply = Completed(text: string) | Raised(message: string)

  type Model = Request -> Reply

  /** A response of the Flask backend as the Streamlit client sees it:
      the status code and `resp.json()`. */
  datatype HttpResponse = HttpResponse(status: int, body: Json.Value)

  /** `str()` of the `datetime` that `datetime.fromisoformat` returns. */
  datatype Timestamp = Timestamp(display: string)

  /** `datetime.fromisoformat`: a timestamp, or `None` when it raises. */
  type FromIso = string -> Option<Timestamp>
}
