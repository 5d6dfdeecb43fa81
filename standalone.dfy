/** `main.py`, the Streamlit app that calls Gemini itself: the reply
    handling in `job_suggestor`, `mock_interview` and `evaluate_answer`,
    and the Mock Interview page that drives the session state. */
module Standalone {
  import opened Base
  import opened Text
  import opened Json
  import opened Services
  import opened Parsing
  import Session

  /** The text handed to `json.loads` in `mock_interview` (main.py:163-166):
      the trimmed reply, cut to the part between its first two fences when
      it opens with one, with every "```json" and then every "```" erased. */
  function QuestionText(reply: string): (r: string)
    ensures IsStripped(r)
  {
    var t := Strip(reply);
    var segment := if StartsWith(t, Fence) then Split(t, Fence)[1] else t;
    Strip(Erase(Erase(segment, JsonFence), Fence))
  }

  /** Text without any backtick is only trimmed. */
  lemma QuestionTextPlain(reply: string)
    requires '`' !in Strip(reply)
    ensures QuestionText(reply) == Strip(reply)
  {
    var t := Strip(reply);
    EraseNoChar(t, JsonFence);
    EraseNoChar(t, Fence);
  }

  /** A reply that opens with a fence keeps only the text up to the next
      fence; whatever follows that fence is dropped. */
  lemma QuestionTextFenced(reply: string, body: string, rest: string)
    requires Strip(reply) == Fence + body + Fence + rest
    requires '`' !in body
    ensures QuestionText(reply) == Strip(body)
  {
    FencedSegment(Strip(reply), body, rest);
    EraseNoChar(body, JsonFence);
    EraseNoChar(body, Fence);
  }

  /** The segment between the first two fences of a fenced text. */
  lemma FencedSegment(t: string, body: string, rest: string)
    requires t == Fence + body + Fence + rest
    requires '`' !in body
    ensures StartsWith(t, Fence) && |Split(t, Fence)| >= 2 && Split(t, Fence)[1] == body
  {
    SecondPart(body, Fence, rest);
    assert t[..3] == Fence;
  }

  /** A reply opening with "```json" keeps its `json` tag: the split on
      "```" leaves "json" at the front of the text given to the parser. */
  lemma QuestionTextKeepsJsonTag(reply: string, body: string, rest: string)
    requires Strip(reply) == JsonFence + body + Fence + rest
    requires '`' !in body
    ensures QuestionText(reply) == Strip("json" + body)
    ensures StartsWith(QuestionText(reply), "json")
  {
    JsonFenceRegroup(body, rest);
    assert '`' !in "json" + body;
    QuestionTextFenced(reply, "json" + body, rest);
    JsonPrefixKept(body);
  }

  lemma JsonPrefixKept(body: string)
    ensures StartsWith(Strip("json" + body), "json")
  {
    StripKeepsPrefix("json", body);
  }

  lemma JsonFenceRegroup(body: string, rest: string)
    ensures JsonFence + body + Fence + rest == Fence + ("json" + body) + Fence + rest
  {
    assert JsonFence == Fence + "json";
  }

  /** One fallback line, `q.strip("-• ").strip()`: the line with every
      '-', '•' and ' ' cut from both ends, then trimmed of whitespace. */
  function CleanLine(line: string): (r: string)
    ensures IsStripped(r)
    ensures exists m :: TrimmedOf(m, line, BulletsAndSpace) && r == Strip(m)
    ensures (line != [] && !In(line[0], BulletsAndSpace) && !IsSpace(line[0])
             && !In(line[|line| - 1], BulletsAndSpace) && !IsSpace(line[|line| - 1])) ==> r == line
  {
    var m := StripIn(line, BulletsAndSpace);
    StripInIsTrimmed(line, BulletsAndSpace);
    assert TrimmedOf(m, line, BulletsAndSpace);
    Strip(m)
  }

  /** A dash bullet, or a dot bullet with a trailing space, is cut off a
      clean question. */
  lemma BulletCut(q: string)
    requires CleanQuestion(q)
    ensures CleanLine("- " + q) == q
    ensures CleanLine("\U{2022} " + q + " ") == q
  {
    DashCut(q);
    DotCut(q);
  }

  lemma DotCut(q: string)
    requires CleanQuestion(q)
    ensures CleanLine("\U{2022} " + q + " ") == q
  {
    assert IsStripped(q);
    var pre, post := "\U{2022} ", " ";
    assert In(pre[0], BulletsAndSpace) && In(pre[1], BulletsAndSpace) && In(post[0], BulletsAndSpace);
    StripInPadded(pre, q, post, BulletsAndSpace);
  }

  lemma DashCut(q: string)
    requires CleanQuestion(q)
    ensures CleanLine("- " + q) == q
  {
    assert IsStripped(q);
    assert "- " + q == "- " + q + [];
    StripInPadded("- ", q, [], BulletsAndSpace);
  }

  /** `[q.strip("-• ").strip() for q in lines if q.strip()]`. */
  function CleanLines(lines: seq<string>): (r: seq<string>)
    ensures |r| <= |lines|
    ensures forall i :: 0 <= i < |r| ==> IsStripped(r[i])
  {
    if lines == [] then [] else CleanedLine(lines[0]) + CleanLines(lines[1..])
  }

  /** What the comprehension makes of one line. */
  function CleanedLine(line: string): (r: seq<string>)
    ensures |r| <= 1 && (r == [] <==> IsBlank(line))
    ensures forall i :: 0 <= i < |r| ==> IsStripped(r[i])
  {
    if IsBlank(line) then [] else [CleanLine(line)]
  }

  /** The line fallback of main.py:170, on the text split at "\n". */
  function LineFallback(text: string): (r: seq<string>)
    ensures |r| <= |Split(text, "\n")|
  {
    CleanLines(Split(text, "\n"))
  }

  /** `[q for q in questions if isinstance(q, str) and q.strip()]`
      (main.py:171): the strings that are not blank, kept as they are. */
  function KeepQuestions(items: seq<Value>): (qs: seq<string>)
    ensures |qs| <= |items|
    ensures forall i :: 0 <= i < |qs| ==> !IsBlank(qs[i]) && Str(qs[i]) in items
  {
    if items == [] then []
    else
      var tail := KeepQuestions(items[1..]);
      assert forall i :: 0 <= i < |tail| ==> Str(tail[i]) in items by {
        forall i | 0 <= i < |tail| ensures Str(tail[i]) in items {
          assert Str(tail[i]) in items[1..];
        }
      }
      Kept(items[0]) + tail
  }

  /** What the filter makes of one item. */
  function Kept(v: Value): (qs: seq<string>)
    ensures |qs| <= 1 && (qs != [] <==> v.Str? && !IsBlank(v.s))
    ensures qs != [] ==> qs[0] == v.s
  {
    if v.Str? && !IsBlank(v.s) then [v.s] else []
  }

  lemma KeepQuestionsCons(v: Value, rest: seq<Value>)
    ensures KeepQuestions([v] + rest) == Kept(v) + KeepQuestions(rest)
  {
    assert ([v] + rest)[1..] == rest;
  }

  /** The filter keeps the order of the list it is given. */
  lemma {:induction false} KeepQuestionsAppend(a: seq<Value>, b: seq<Value>)
    ensures KeepQuestions(a + b) == KeepQuestions(a) + KeepQuestions(b)
    decreases |a|
  {
    if a != [] {
      var h, t := a[0], a[1..];
      assert a == [h] + t;
      assert a + b == [h] + (t + b);
      KeepQuestionsCons(h, t + b);
      KeepQuestionsCons(h, t);
      KeepQuestionsAppend(t, b);
      var x, y, z := Kept(h), KeepQuestions(t), KeepQuestions(b);
      assert x + (y + z) == (x + y) + z;
    } else {
      assert a + b == b;
    }
  }

  /** Non-blank strings all pass the filter, in order. */
  lemma {:induction false} KeepQuestionsOfStrings(qs: seq<string>)
    requires forall i :: 0 <= i < |qs| ==> !IsBlank(qs[i])
    ensures KeepQuestions(Strings(qs)) == qs
    decreases |qs|
  {
    if qs != [] {
      var q, rest := qs[0], qs[1..];
      assert qs == [q] + rest;
      assert Strings(qs) == [Str(q)] + Strings(rest);
      KeepQuestionsOfStrings(rest);
      KeepQuestionsCons(Str(q), Strings(rest));
    }
  }

  /** A line with no bullet or space at either end is kept as it is. */
  predicate CleanQuestion(q: string) {
    q != [] && '`' !in q && '\n' !in q
    && !In(q[0], BulletsAndSpace) && !IsSpace(q[0])
    && !In(q[|q| - 1], BulletsAndSpace) && !IsSpace(q[|q| - 1])
  }

  lemma CleanLineOfClean(q: string)
    requires CleanQuestion(q)
    ensures CleanLine(q) == q && !IsBlank(q)
  {
    assert !IsSpace(q[0]);
  }

  predicate AllClean(qs: seq<string>) {
    qs == [] || (CleanQuestion(qs[0]) && AllClean(qs[1..]))
  }

  lemma {:induction false} AllCleanFrom(qs: seq<string>)
    requires forall i :: 0 <= i < |qs| ==> CleanQuestion(qs[i])
    ensures AllClean(qs)
    decreases |qs|
  {
    if qs != [] {
      var tail := qs[1..];
      assert forall i :: 0 <= i < |tail| ==> tail[i] == qs[i + 1];
      AllCleanFrom(tail);
    }
  }

  lemma {:induction false} CleanLinesOfClean(qs: seq<string>)
    requires AllClean(qs)
    ensures CleanLines(qs) == qs
    decreases |qs|
  {
    if qs != [] {
      var q, rest := qs[0], qs[1..];
      assert [q] + rest == qs;
      CleanLineOfClean(q);
      CleanLinesOfClean(rest);
      CleanLinesCons(q, rest);
    }
  }

  /** Unfolding `CleanLines` at its first line. */
  lemma CleanLinesCons(line: string, rest: seq<string>)
    ensures CleanLines([line] + rest) == CleanedLine(line) + CleanLines(rest)
  {
    assert ([line] + rest)[1..] == rest;
  }

  /** The reply of `mock_interview`: `{"questions": [...]}` or `{"error": ...}`. */
  datatype Generated = Questions(questions: seq<string>) | GenerationError(message: string)

  /** `mock_interview(role)` (main.py:153-174). */
  function MockInterview(role: string, model: Model, loads: Loads): (r: Generated)
    ensures IsBlank(role) ==> r == GenerationError("Role required")
    ensures !IsBlank(role) && model(InterviewQuestions(role, StreamlitApp)).Raised? ==>
      r == GenerationError(model(InterviewQuestions(role, StreamlitApp)).message)
    ensures r.Questions? ==> forall i :: 0 <= i < |r.questions| ==> !IsBlank(r.questions[i])
    ensures !IsBlank(role) && model(InterviewQuestions(role, StreamlitApp)).Completed? ==>
      var decoded := loads(QuestionText(model(InterviewQuestions(role, StreamlitApp)).text));
      (decoded.Loaded? && Iterate(decoded.value).Err? ==>
         r == GenerationError("'" + TypeName(decoded.value) + "' object is not iterable"))
      && (decoded.Loaded? && Iterate(decoded.value).Ok? ==> r == Questions(KeepQuestions(Iterate(decoded.value).value)))
      && (decoded.Loaded? && decoded.value.Array? ==> r == Questions(KeepQuestions(decoded.value.items)))
      && (decoded.DecodeError? ==> r == Questions(KeepQuestions(Strings(LineFallback(
            QuestionText(model(InterviewQuestions(role, StreamlitApp)).text))))))
  {
    if IsBlank(role) then GenerationError("Role required")
    else
      match model(InterviewQuestions(role, StreamlitApp))
      case Raised(e) => GenerationError(e)
      case Completed(reply) =>
        var t := QuestionText(reply);
        match loads(t)
        case DecodeError(_) => Questions(KeepQuestions(Strings(LineFallback(t))))
        case Loaded(v) =>
          match Iterate(v)
          case Err(e) => GenerationError(e)
          case Ok(items) => Questions(KeepQuestions(items))
  }

  /** A reply that decodes to a list of non-blank strings gives exactly
      those strings, in order. */
  lemma MainQuestionsFromArray(role: string, model: Model, loads: Loads, qs: seq<string>)
    requires !IsBlank(role) && model(InterviewQuestions(role, StreamlitApp)).Completed?
    requires loads(QuestionText(model(InterviewQuestions(role, StreamlitApp)).text)) == Loaded(Array(Strings(qs)))
    requires forall i :: 0 <= i < |qs| ==> !IsBlank(qs[i])
    ensures MockInterview(role, model, loads) == Questions(qs)
  {
    KeepQuestionsOfStrings(qs);
  }

  /** A plain reply of clean lines that the parser rejects gives back
      exactly those lines, in order. */
  lemma MainQuestionsFromLines(role: string, model: Model, loads: Loads, qs: seq<string>)
    requires !IsBlank(role)
    requires qs != [] && forall i :: 0 <= i < |qs| ==> CleanQuestion(qs[i])
    requires model(InterviewQuestions(role, StreamlitApp)) == Completed(Join(qs, "\n"))
    requires loads(Join(qs, "\n")).DecodeError?
    ensures MockInterview(role, model, loads) == Questions(qs)
  {
    var j := Join(qs, "\n");
    JoinedCleanLines(qs);
    QuestionTextPlain(j);
    LineFallbackOfClean(qs);
    NonBlankOfClean(qs);
    KeepQuestionsOfStrings(qs);
  }

  /** A reply of dash bullets that the parser rejects gives back the
      questions without their bullets, in order. */
  lemma MainQuestionsFromBullets(role: string, model: Model, loads: Loads, qs: seq<string>)
    requires !IsBlank(role)
    requires qs != [] && forall i :: 0 <= i < |qs| ==> CleanQuestion(qs[i])
    requires model(InterviewQuestions(role, StreamlitApp)) == Completed(Join(Bulleted(qs), "\n"))
    requires loads(Join(Bulleted(qs), "\n")).DecodeError?
    ensures MockInterview(role, model, loads) == Questions(qs)
  {
    var j := Join(Bulleted(qs), "\n");
    JoinedBulletLines(qs);
    QuestionTextPlain(j);
    LineFallbackOfBulleted(qs);
    NonBlankOfClean(qs);
    KeepQuestionsOfStrings(qs);
  }

  /** Each question behind a "- " bullet. */
  function Bulleted(qs: seq<string>): (ls: seq<string>)
    ensures |ls| == |qs| && forall i :: 0 <= i < |qs| ==> ls[i] == "- " + qs[i]
  {
    if qs == [] then [] else ["- " + qs[0]] + Bulleted(qs[1..])
  }

  /** The line fallback takes the bullets off again. */
  lemma LineFallbackOfBulleted(qs: seq<string>)
    requires forall i :: 0 <= i < |qs| ==> CleanQuestion(qs[i])
    ensures LineFallback(Join(Bulleted(qs), "\n")) == qs
  {
    var ls := Bulleted(qs);
    if qs != [] {
      forall i | 0 <= i < |ls| ensures '\n' !in ls[i] {
        BulletedLineFacts(qs[i]);
      }
      SplitCharJoin(ls, '\n');
    } else {
      assert Join(ls, "\n") == [];
      assert Split([], "\n") == [[]];
      assert IsBlank([]);
    }
    AllCleanFrom(qs);
    CleanLinesOfBulleted(qs);
  }

  lemma {:induction false} CleanLinesOfBulleted(qs: seq<string>)
    requires AllClean(qs)
    ensures CleanLines(Bulleted(qs)) == qs
    decreases |qs|
  {
    if qs != [] {
      var q, rest := qs[0], qs[1..];
      assert [q] + rest == qs;
      assert Bulleted(qs) == ["- " + q] + Bulleted(rest);
      BulletedCleaned(q);
      CleanLinesOfBulleted(rest);
      CleanLinesCons("- " + q, Bulleted(rest));
    }
  }

  lemma BulletedCleaned(q: string)
    requires CleanQuestion(q)
    ensures CleanedLine("- " + q) == [q]
  {
    var l := "- " + q;
    assert l[0] == '-' && !IsSpace(l[0]);
    DashCut(q);
  }

  /** The facts about one bulleted line that joining and splitting need. */
  lemma BulletedLineFacts(q: string)
    requires CleanQuestion(q)
    ensures var l := "- " + q;
      l[0] == '-' && l[|l| - 1] == q[|q| - 1] && '`' !in l && '\n' !in l
  {
  }

  /** Bulleted clean lines joined by "\n" make a trimmed text without
      backticks. */
  lemma JoinedBulletLines(qs: seq<string>)
    requires qs != [] && forall i :: 0 <= i < |qs| ==> CleanQuestion(qs[i])
    ensures Strip(Join(Bulleted(qs), "\n")) == Join(Bulleted(qs), "\n")
    ensures '`' !in Join(Bulleted(qs), "\n")
  {
    var ls := Bulleted(qs);
    var last := qs[|qs| - 1];
    assert CleanQuestion(last);
    BulletedLineFacts(qs[0]);
    BulletedLineFacts(last);
    forall i | 0 <= i < |ls| ensures '`' !in ls[i] {
      BulletedLineFacts(qs[i]);
    }
    JoinedTrimmedEnds(ls);
  }

  /** Lines without backticks whose outer ends are not whitespace join into
      a trimmed text without backticks. */
  lemma JoinedTrimmedEnds(ls: seq<string>)
    requires ls != [] && ls[0] != [] && ls[|ls| - 1] != []
    requires !IsSpace(ls[0][0]) && !IsSpace(ls[|ls| - 1][|ls[|ls| - 1]| - 1])
    requires forall i :: 0 <= i < |ls| ==> '`' !in ls[i]
    ensures Strip(Join(ls, "\n")) == Join(ls, "\n")
    ensures '`' !in Join(ls, "\n")
  {
    JoinEndChars(ls, "\n");
    JoinNoChar(ls, "\n", '`');
  }

  /** Clean lines joined by "\n" make a trimmed text without backticks. */
  lemma JoinedCleanLines(qs: seq<string>)
    requires qs != [] && forall i :: 0 <= i < |qs| ==> CleanQuestion(qs[i])
    ensures Strip(Join(qs, "\n")) == Join(qs, "\n")
    ensures '`' !in Join(qs, "\n")
  {
    var last := qs[|qs| - 1];
    assert CleanQuestion(qs[0]) && CleanQuestion(last);
    JoinEndChars(qs, "\n");
    JoinNoChar(qs, "\n", '`');
  }

  /** The line fallback gives back clean lines joined by "\n". */
  lemma LineFallbackOfClean(qs: seq<string>)
    requires qs != [] && forall i :: 0 <= i < |qs| ==> CleanQuestion(qs[i])
    ensures LineFallback(Join(qs, "\n")) == qs
  {
    SplitCharJoin(qs, '\n');
    AllCleanFrom(qs);
    CleanLinesOfClean(qs);
  }

  lemma NonBlankOfClean(qs: seq<string>)
    requires forall i :: 0 <= i < |qs| ==> CleanQuestion(qs[i])
    ensures forall i :: 0 <= i < |qs| ==> !IsBlank(qs[i])
  {
    forall i | 0 <= i < |qs| ensures !IsBlank(qs[i]) {
      assert !IsSpace(qs[i][0]);
    }
  }

  /** When the reply opens with "```json" and a line break and the parser
      rejects the text (it starts with `json`), the line fallback makes the
      tag itself the first question. */
  lemma JsonTagBecomesFirstQuestion(role: string, model: Model, loads: Loads, reply: string, body: string, rest: string)
    requires !IsBlank(role)
    requires model(InterviewQuestions(role, StreamlitApp)) == Completed(reply)
    requires Strip(reply) == JsonFence + "\n" + body + Fence + rest
    requires '`' !in body
    requires loads(QuestionText(reply)).DecodeError?
    ensures MockInterview(role, model, loads).Questions?
    ensures |MockInterview(role, model, loads).questions| > 0
    ensures MockInterview(role, model, loads).questions[0] == "json"
  {
    JsonTagFirstLine(reply, body, rest);
    var t := QuestionText(reply);
    JsonLineFallback(t);
    KeepQuestionsHead(LineFallback(t));
  }

  /** The text given to the parser starts with the line "json". */
  lemma JsonTagFirstLine(reply: string, body: string, rest: string)
    requires Strip(reply) == JsonFence + "\n" + body + Fence + rest
    requires '`' !in body
    ensures Split(QuestionText(reply), "\n")[0] == "json"
  {
    NewlineRegroup(body, rest);
    assert '`' !in "\n" + body;
    QuestionTextKeepsJsonTag(reply, "\n" + body, rest);
    JsonLineFirst(body);
  }

  lemma NewlineRegroup(body: string, rest: string)
    ensures JsonFence + "\n" + body + Fence + rest == JsonFence + ("\n" + body) + Fence + rest
  {
  }

  /** A text whose first line is "json" keeps that line first. */
  lemma JsonLineFallback(t: string)
    requires Split(t, "\n")[0] == "json"
    ensures LineFallback(t) != [] && LineFallback(t)[0] == "json"
  {
    var lines := Split(t, "\n");
    assert [lines[0]] + lines[1..] == lines;
    JsonLineIsClean();
    CleanLinesCons(lines[0], lines[1..]);
  }

  lemma JsonLineIsClean()
    ensures !IsBlank("json") && CleanLine("json") == "json"
  {
    var j := "json";
    assert j[0] == 'j' && j[3] == 'n';
    assert '`' !in j && '\n' !in j;
    CleanLineOfClean(j);
  }

  /** A non-blank first string is the first question kept. */
  lemma KeepQuestionsHead(qs: seq<string>)
    requires qs != [] && !IsBlank(qs[0])
    ensures KeepQuestions(Strings(qs)) != [] && KeepQuestions(Strings(qs))[0] == qs[0]
  {
    assert Strings(qs) == [Str(qs[0])] + Strings(qs[1..]);
    KeepQuestionsCons(Str(qs[0]), Strings(qs[1..]));
  }

  /** The first line of the trimmed "json\n…" is "json". */
  lemma JsonLineFirst(body: string)
    ensures Split(Strip("json" + ("\n" + body)), "\n")[0] == "json"
  {
    StripJsonLine(body);
    FirstLineJson(Strip("json" + ("\n" + body)));
  }

  /** Trimming "json\n…" keeps "json" and, if anything follows, the break. */
  lemma StripJsonLine(body: string)
    ensures var r := Strip("json" + ("\n" + body));
      |r| >= 4 && r[..4] == "json" && (|r| == 4 || r[4] == '\n')
  {
    var s := "json" + ("\n" + body);
    StripKeepsPrefix("json", "\n" + body);
    assert s[0] == 'j' && s[4] == '\n';
    StripFromStart(s);
    var r := Strip(s);
    if |r| > 4 {
      assert r[4] == s[4];
    }
  }

  /** Text that is "json" or starts with "json\n" has "json" as its first line. */
  lemma FirstLineJson(r: string)
    requires |r| >= 4 && r[..4] == "json" && (|r| == 4 || r[4] == '\n')
    ensures Split(r, "\n")[0] == "json"
  {
    if |r| == 4 {
      assert r == "json";
      SplitCharJoin(["json"], '\n');
    } else {
      assert r == "json" + ['\n'] + r[5..];
      SplitFirstPart("json", '\n', r[5..]);
    }
  }

  /** `evaluate_answer(question, transcript)` as the page calls it, with an
      empty resume text (main.py:176-204). */
  function EvaluateAnswer(question: string, transcript: string, model: Model, loads: Loads): (r: Value)
    ensures IsBlank(transcript) ==> r == ErrorRecord("No answer provided")
    ensures !IsBlank(transcript) ==>
      var reply := model(AnswerEvaluation(question, transcript, "", StreamlitApp));
      (reply.Raised? ==> r == ErrorRecord(reply.message))
      && (reply.Completed? && loads(reply.text).DecodeError? ==> r == FallbackEvaluation(reply.text))
      && (reply.Completed? && loads(reply.text).Loaded? ==> r == loads(reply.text).value)
  {
    if IsBlank(transcript) then ErrorRecord("No answer provided")
    else
      match model(AnswerEvaluation(question, transcript, "", StreamlitApp))
      case Raised(e) => ErrorRecord(e)
      case Completed(raw) => ParseEvaluation(raw, loads)
  }

  /** `job_suggestor(profile, location)` (main.py:120-150). The model call
      sits outside the `try`, so its exception escapes: `Err`. The location
      is never used. */
  function JobSuggestor(profile: string, location: string, model: Model, loads: Loads): (r: Result<Value>)
    ensures model(JobSuggestions(profile)).Raised? <==> r.Err?
    ensures r.Err? ==> r.error == model(JobSuggestions(profile)).message
    ensures model(JobSuggestions(profile)).Completed? ==>
      r == Ok(JobsPayload(model(JobSuggestions(profile)).text, loads))
  {
    match model(JobSuggestions(profile))
    case Raised(e) => Err(e)
    case Completed(raw) => Ok(JobsPayload(raw, loads))
  }

  // ---------------------------------------------------------------- the page

  /** What pressing "Start Mock Interview" decides (main.py:321-336): the
      questions to start with, or `None` when the page only warns. */
  function StartOutcome(role: string, model: Model, loads: Loads): (r: Option<seq<string>>)
    ensures IsBlank(role) ==> r.None?
    ensures r.Some? ==> r.value != [] && MockInterview(role, model, loads) == Questions(r.value)
    ensures (!IsBlank(role) && MockInterview(role, model, loads).Questions?
             && MockInterview(role, model, loads).questions != []) ==> r.Some?
  {
    if IsBlank(role) then None
    else
      match MockInterview(role, model, loads)
      case GenerationError(_) => None
      case Questions(qs) => if qs == [] then None else Some(qs)
  }

  /** What pressing "Submit Answer" decides (main.py:349-363): the record to
      append, or `None`. A record with an "error" key (or, for a string or
      list, an "error" entry) is shown as an error; for a number, `true` or
      `null` the `in` test raises and the script stops. */
  function SubmitOutcome(question: string, answer: string, model: Model, loads: Loads): (r: Option<Value>)
    ensures IsBlank(answer) ==> r.None?
    ensures r.Some? ==> (r.value == EvaluateAnswer(question, answer, model, loads)
                         && Contains(r.value, "error") == Some(false))
    ensures !IsBlank(answer) && Contains(EvaluateAnswer(question, answer, model, loads), "error") == Some(false)
      ==> r.Some?
  {
    if IsBlank(answer) then None
    else
      var res := EvaluateAnswer(question, answer, model, loads);
      match Contains(res, "error")
      case Some(false) => Some(res)
      case _ => None
  }

  /** A reply the parser rejects is still recorded, as the zero-score
      record carrying the reply verbatim. */
  lemma UnparsedReplyIsRecorded(question: string, answer: string, model: Model, loads: Loads, raw: string)
    requires !IsBlank(answer)
    requires model(AnswerEvaluation(question, answer, "", StreamlitApp)) == Completed(raw)
    requires loads(raw).DecodeError?
    ensures SubmitOutcome(question, answer, model, loads) == Some(FallbackEvaluation(raw))
  {
  }

  /** A model failure on submit records nothing. */
  lemma FailedEvaluationRecordsNothing(question: string, answer: string, model: Model, loads: Loads)
    requires model(AnswerEvaluation(question, answer, "", StreamlitApp)).Raised?
    ensures SubmitOutcome(question, answer, model, loads).None?
  {
  }

  /** One press of "Start Mock Interview" on the session. */
  method PressStart(session: Session.InterviewSession<string, Value>, role: string, model: Model, loads: Loads)
    modifies session
    ensures session.State() ==
      (match StartOutcome(role, model, loads)
       case Some(qs) => Session.Started(qs)
       case None => old(session.State()))
  {
    var outcome := StartOutcome(role, model, loads);
    if outcome.Some? {
      session.Start(outcome.value);
    }
  }

  /** One press of "Submit Answer" on the question on screen. */
  method PressSubmit(session: Session.InterviewSession<string, Value>, answer: string, model: Model, loads: Loads)
    requires Session.Showing(session.State())
    modifies session
    ensures var q := old(session.questions[session.idx]);
      session.State() ==
        (match SubmitOutcome(q, answer, model, loads)
         case Some(res) => Session.Answered(old(session.State()), res)
         case None => old(session.State()))
  {
    var question := session.Current();
    var outcome := SubmitOutcome(question, answer, model, loads);
    if outcome.Some? {
      session.Submit(outcome.value);
    }
  }
}
