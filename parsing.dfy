/** Reply handling that `main.py` and `backend.py` share line for line: the
    Markdown fence removal before the job-suggestion parse and the record
    that stands in for an answer evaluation the model did not give as JSON. */
module Parsing {
  import opened Base
  import opened Text
  import opened Json

  const Fence: string := "```"
  const JsonFence: string := "```json"

  /** `re.sub(r"^```(json)?", "", t)`: the pattern is anchored at the start
      of the text, and the optional `json` is taken whenever it is there. */
  function DropLeadingFence(t: string): (r: string)
    ensures StartsWith(t, JsonFence) ==> r == t[|JsonFence|..]
    ensures !StartsWith(t, JsonFence) && StartsWith(t, Fence) ==> r == t[|Fence|..]
    ensures !StartsWith(t, Fence) ==> r == t
  {
    if StartsWith(t, JsonFence) then t[7..]
    else if StartsWith(t, Fence) then t[3..]
    else t
  }

  /** `re.sub(r"```$", "", t)`: without MULTILINE, `$` matches at the end of
      the text and just before a final "\n", so at most one fence goes. */
  function DropTrailingFence(t: string): (r: string)
    ensures EndsWith(t, Fence) ==> r == t[..|t| - |Fence|]
    ensures EndsWith(t, Fence + "\n") ==> r == t[..|t| - 4] + "\n"
    ensures !EndsWith(t, Fence) && !EndsWith(t, Fence + "\n") ==> r == t
  {
    if EndsWith(t, Fence) then
      assert t[|t| - 1] == t[|t| - 3..][2];
      t[..|t| - 3]
    else if EndsWith(t, Fence + "\n") then t[..|t| - 4] + "\n"
    else t
  }

  /** The text handed to `json.loads` in `job_suggestor`
      (main.py:144-146, backend.py:144-148). */
  function JobText(raw: string): (r: string)
    ensures IsStripped(r)
  {
    Strip(DropTrailingFence(DropLeadingFence(Strip(raw))))
  }

  /** The dict `job_suggestor` returns once the model has answered: the
      parsed jobs, or an error record that keeps the reply as it came. */
  function JobsPayload(raw: string, loads: Loads): (r: Value)
    ensures r.Object? && |r.entries| == 1 && r.entries[0].0 == "jobs"
    ensures loads(JobText(raw)).Loaded? ==> r.entries[0].1 == loads(JobText(raw)).value
    ensures loads(JobText(raw)).DecodeError? ==>
      var jobs := r.entries[0].1;
      jobs.Object?
      && Get(jobs.entries, "error") == Some(Str("Could not parse job suggestions: " + loads(JobText(raw)).message))
      && Get(jobs.entries, "raw_response") == Some(Str(raw))
  {
    var jobs := match loads(JobText(raw))
      case Loaded(v) => v
      case DecodeError(e) =>
        Object([("error", Str("Could not parse job suggestions: " + e)), ("raw_response", Str(raw))]);
    Object([("jobs", jobs)])
  }

  /** A fence with no further text in between is cut off both ends: the
      parser sees the trimmed body. */
  lemma JobTextJsonFenced(raw: string, body: string)
    requires Strip(raw) == JsonFence + body + Fence
    ensures JobText(raw) == Strip(body)
  {
    var t := Strip(raw);
    assert t[..7] == JsonFence;
    assert t[7..] == body + Fence;
    DropFenceTail(body);
  }

  /** The trailing fence of `body + "```"` is the one removed. */
  lemma DropFenceTail(body: string)
    ensures DropTrailingFence(body + Fence) == body
  {
    var u := body + Fence;
    assert u[|u| - 3..] == Fence;
    assert u[..|u| - 3] == body;
  }

  /** The same for a bare fence, as long as the body does not itself begin
      with `json` (the pattern would swallow that). */
  lemma JobTextBareFenced(raw: string, body: string)
    requires Strip(raw) == Fence + body + Fence
    requires !StartsWith(body, "json")
    ensures JobText(raw) == Strip(body)
  {
    BareFenceLeading(body);
    DropFenceTail(body);
  }

  lemma BareFenceLeading(body: string)
    requires !StartsWith(body, "json")
    ensures DropLeadingFence(Fence + body + Fence) == body + Fence
  {
    var t := Fence + body + Fence;
    assert t[..3] == Fence;
    assert t[3..] == body + Fence;
    if |body| >= 4 {
      assert t[3..7] == body[..4];
    } else {
      assert t[3 + |body|] == '`';
    }
    assert |t| >= 7 ==> t[..7][3..] == t[3..7];
  }

  /** Text with no fence at either end is only trimmed. */
  lemma JobTextUnfenced(raw: string)
    requires !StartsWith(Strip(raw), Fence) && !EndsWith(Strip(raw), Fence)
    ensures JobText(raw) == Strip(raw)
  {
    var t := Strip(raw);
    assert !StartsWith(t, JsonFence) by {
      if |t| >= 7 { assert t[..7][..3] == t[..3]; }
    }
    assert !EndsWith(t, Fence + "\n") by {
      if |t| >= 4 { assert (Fence + "\n")[3] == '\n'; assert IsStripped(t); }
    }
  }

  /** `{"error": message}`, the failure record of the helpers and routes. */
  function ErrorRecord(message: string): (r: Value)
    ensures r.Object? && Get(r.entries, "error") == Some(Str(message))
    ensures Contains(r, "error") == Some(true)
  {
    Object([("error", Str(message))])
  }

  /** The record `evaluate_answer` returns when the reply is not JSON
      (main.py:196-201, backend.py:224-229). */
  function FallbackEvaluation(raw: string): (r: Value)
    ensures r.Object?
    ensures Get(r.entries, "clarity") == Some(Int(0))
    ensures Get(r.entries, "confidence") == Some(Int(0))
    ensures Get(r.entries, "score") == Some(Int(0))
    ensures Get(r.entries, "feedback") == Some(Str(raw))
    ensures Contains(r, "error") == Some(false)
  {
    var e := [("clarity", Int(0)), ("confidence", Int(0)), ("score", Int(0)), ("feedback", Str(raw))];
    FallbackEntries(e, raw);
    Object(e)
  }

  lemma FallbackEntries(e: seq<(string, Value)>, raw: string)
    requires e == [("clarity", Int(0)), ("confidence", Int(0)), ("score", Int(0)), ("feedback", Str(raw))]
    ensures Get(e, "clarity") == Some(Int(0)) && Get(e, "confidence") == Some(Int(0))
    ensures Get(e, "score") == Some(Int(0)) && Get(e, "feedback") == Some(Str(raw))
    ensures Get(e, "error").None?
  {
    assert "clarity"[1] != "confidence"[1];
    assert "clarity"[0] != "score"[0] && "confidence"[0] != "score"[0];
    assert "clarity"[0] != "feedback"[0] && "confidence"[0] != "feedback"[0] && "score"[0] != "feedback"[0];
    var e3, e2, e1 := e[..3], e[..2], e[..1];
    assert e3[..2] == e2 && e2[..1] == e1;
    assert Get(e1, "clarity") == Some(Int(0));
    assert Get(e2, "confidence") == Some(Int(0));
    assert Get(e2, "clarity") == Some(Int(0));
    assert Get(e3, "score") == Some(Int(0));
    assert forall i :: 0 <= i < |e| ==> e[i].0[0] != "error"[0];
  }

  /** The evaluation record: the parsed reply, or the fallback record. */
  function ParseEvaluation(raw: string, loads: Loads): (r: Value)
    ensures loads(raw).Loaded? ==> r == loads(raw).value
    ensures loads(raw).DecodeError? ==> r == FallbackEvaluation(raw)
  {
    match loads(raw)
    case Loaded(v) => v
    case DecodeError(_) => FallbackEvaluation(raw)
  }
}
