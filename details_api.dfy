/**
 * The questionnaire endpoint (pages/api/generate-magical-girl-details.ts):
 * it checks the answers, builds the prompt that lists them one per line,
 * asks the model for a profile and hands the profile, together with the
 * answers, to the database. The model's reply and the flower list drawn
 * for the prompt are parameters; the outcome of the database write is
 * only logged, so the reply never depends on it.
 */
module DetailsApi {
  import opened Wrappers
  import opened JsText
  import opened Json

  const MaxAnswerLength := 30

  const MethodNotAllowed := "Method not allowed"
  const AnswersRequired := "Answers array is required"
  const AnswerBlank := "All answers must be non-empty strings"
  const AnswerTooLong := "Each answer must not exceed 30 characters"
  const GenerationFailed := "生成失败，请稍后重试"

  // Validation

  /** What the check of one answer says: `None` when the answer passes. */
  function AnswerError(a: Json): (e: Option<string>)
    ensures e == None <==> a.JStr? && Trim(a.s) != [] && |a.s| <= MaxAnswerLength
    ensures e == Some(AnswerBlank) <==> !a.JStr? || Trim(a.s) == []
  {
    if !a.JStr? || Trim(a.s) == [] then Some(AnswerBlank)
    else if |a.s| > MaxAnswerLength then Some(AnswerTooLong)
    else None
  }

  /** An answer the handler lets through: a string that is not blank and at most 30 code units long. */
  predicate GoodAnswer(a: Json) {
    a.JStr? && Trim(a.s) != [] && |a.s| <= MaxAnswerLength
  }

  /**
   * Where the check of the answers from index `i` on stops: the first
   * answer that fails, or the end when they all pass.
   */
  function FirstBadFrom(answers: seq<Json>, i: nat): (f: nat)
    requires i <= |answers|
    ensures i <= f <= |answers|
    ensures forall j :: i <= j < f ==> GoodAnswer(answers[j])
    ensures f < |answers| ==> !GoodAnswer(answers[f])
    decreases |answers| - i
  {
    if i == |answers| || !GoodAnswer(answers[i]) then i else FirstBadFrom(answers, i + 1)
  }

  /** The answers are checked in order and the first one that fails decides the message. */
  function FirstAnswerError(answers: seq<Json>): Option<string> {
    var f := FirstBadFrom(answers, 0);
    if f < |answers| then AnswerError(answers[f]) else None
  }

  /**
   * The check passes exactly when every answer is good, and when it fails
   * its message is the one for the first bad answer, every answer before
   * that one being good.
   */
  lemma FirstAnswerErrorMeaning(answers: seq<Json>)
    ensures FirstAnswerError(answers) == None <==> forall i :: 0 <= i < |answers| ==> GoodAnswer(answers[i])
    ensures FirstAnswerError(answers).Some? ==>
      exists i :: 0 <= i < |answers| && !GoodAnswer(answers[i])
        && (forall j :: 0 <= j < i ==> GoodAnswer(answers[j]))
        && FirstAnswerError(answers) == AnswerError(answers[i])
  {
    var f := FirstBadFrom(answers, 0);
    if f < |answers| {
      assert !GoodAnswer(answers[f]) && FirstAnswerError(answers) == AnswerError(answers[f]);
    }
  }

  // Prompt

  const PromptIntro := "请基于以下问卷回答开始分析和预测："
  const FlowersIntro := "，可选的花名和对应的花语："

  function QaPrefix(k: nat): string {
    "问题" + NatToString(k + 1) + "的回答: \""
  }

  /** The line for the answer at index `k`: its one-based number and the answer in double quotes. */
  function QaLine(k: nat, answer: string): string {
    QaPrefix(k) + answer + "\""
  }

  function QaLines(answers: seq<string>): (lines: seq<string>)
    ensures |lines| == |answers|
    ensures forall k :: 0 <= k < |answers| ==> lines[k] == QaLine(k, answers[k])
  {
    seq(|answers|, k requires 0 <= k < |answers| => QaLine(k, answers[k]))
  }

  /** The prompt: the numbered answers, one per line, then the flower list. */
  function Prompt(answers: seq<string>, flowers: string): string {
    PromptIntro + JoinBy(QaLines(answers), "\n") + FlowersIntro + flowers
  }

  lemma {:induction false} JoinByChar(parts: seq<string>, sep: char)
    ensures JoinBy(parts, [sep]) == Join(parts, sep)
  {
    if |parts| > 1 {
      JoinByChar(parts[1..], sep);
    }
  }

  lemma QaLineNoNewline(k: nat, answer: string)
    requires !ContainsChar(answer, '\n')
    ensures !ContainsChar(QaLine(k, answer), '\n')
  {
    var line := QaLine(k, answer);
    var p := QaPrefix(k);
    var digits := NatToString(k + 1);
    assert line == "问题" + digits + "的回答: \"" + answer + "\"";
    forall i | 0 <= i < |line|
      ensures line[i] != '\n'
    {
      if i < 2 {
      } else if i < 2 + |digits| {
        assert line[i] == digits[i - 2];
      } else if i < |p| {
      } else if i < |p| + |answer| {
        assert line[i] == answer[i - |p|];
      }
    }
  }

  /**
   * Answers without line breaks come back from the answer block line by
   * line: splitting it at `\n` gives one line per answer, in order, each
   * carrying that answer's number and text.
   */
  lemma AnswerBlockLines(answers: seq<string>)
    requires |answers| > 0
    requires forall k :: 0 <= k < |answers| ==> !ContainsChar(answers[k], '\n')
    ensures Split(JoinBy(QaLines(answers), "\n"), '\n') == QaLines(answers)
  {
    var lines := QaLines(answers);
    forall k | 0 <= k < |lines|
      ensures !ContainsChar(lines[k], '\n')
    {
      QaLineNoNewline(k, answers[k]);
    }
    JoinByChar(lines, '\n');
    SplitJoin(lines, '\n');
  }

  /** The numbered prefixes tell the lines apart: different positions never share a prefix. */
  lemma QaPrefixInjective(k: nat, m: nat)
    requires QaPrefix(k) == QaPrefix(m)
    ensures k == m
  {
    var dk := NatToString(k + 1);
    var dm := NatToString(m + 1);
    assert |QaPrefix(k)| == |dk| + 8 && |QaPrefix(m)| == |dm| + 8;
    assert dk == QaPrefix(k)[2..2 + |dk|];
    assert dm == QaPrefix(m)[2..2 + |dm|];
    NatToStringInjective(k + 1, m + 1);
  }

  // Handler

  datatype ReplyBody = ErrorBody(error: string) | DetailsBody(details: Json)

  /**
   * What a request leads to: the response, and the record handed to the
   * database when one is written.
   */
  datatype Handled =
    | Responded(status: int, body: ReplyBody, saved: Option<Json>)
    | Uncaught

  /** The text of each answer; the checks have made every answer a string by then. */
  function Texts(items: seq<Json>): (texts: seq<string>)
    ensures |texts| == |items|
    ensures forall k :: 0 <= k < |items| && items[k].JStr? ==> items[k] == JStr(texts[k])
  {
    seq(|items|, k requires 0 <= k < |items| => if items[k].JStr? then items[k].s else "")
  }

  /** The record saved with a profile: the profile's properties with `answers` added. */
  function SavedRecord(details: Json, answers: seq<Json>): Json {
    JObj(Set(Spread(details), "answers", JArr(answers)))
  }

  /**
   * The handler. `body` is the parsed request body (`None` when it is not
   * JSON), `flowers` the flower list drawn for the prompt and `ai` the
   * model's answer to a prompt (`None` when generation throws). A body that
   * cannot be parsed, or that is `null`, throws before the `try` block.
   */
  function Handle(verb: string, body: Option<Json>, flowers: string, ai: string -> Option<Json>): Handled {
    if verb != "POST" then Responded(405, ErrorBody(MethodNotAllowed), None)
    else if body.None? || body.value.JNull? then Uncaught
    else HandleAnswers(Member(body, "answers"), flowers, ai)
  }

  /** The `try` block once the body is read: the checks on `answers`, then the model call. */
  function HandleAnswers(answers: Option<Json>, flowers: string, ai: string -> Option<Json>): Handled {
    var err := AnswersCheck(answers);
    if err.Some? then Responded(400, ErrorBody(err.value), None)
    else Generate(answers.value.items, flowers, ai)
  }

  /**
   * The checks on `answers`: a missing, non-array or empty value, then the
   * first bad answer. `None` when they pass.
   */
  function AnswersCheck(answers: Option<Json>): (err: Option<string>)
    ensures err.None? ==> answers.Some? && answers.value.JArr?
  {
    if !TruthyOpt(answers) || !answers.value.JArr? || |answers.value.items| == 0 then Some(AnswersRequired)
    else FirstAnswerError(answers.value.items)
  }

  /** The model call for checked answers: 200 with the profile and the record to save, or 500. */
  function Generate(items: seq<Json>, flowers: string, ai: string -> Option<Json>): (h: Handled)
    ensures h.Responded? && (h.status == 200 || h.status == 500)
  {
    var details := ai(Prompt(Texts(items), flowers));
    if details.None? then Responded(500, ErrorBody(GenerationFailed), None)
    else Responded(200, DetailsBody(details.value), Some(SavedRecord(details.value, items)))
  }

  /** The answers of a request body, when it is a non-empty array of good answers. */
  predicate AcceptedAnswers(body: Json) {
    var answers := Member(Some(body), "answers");
    answers.Some? && answers.value.JArr? && |answers.value.items| > 0
    && forall i :: 0 <= i < |answers.value.items| ==> GoodAnswer(answers.value.items[i])
  }

  /**
   * Which requests are refused and how: only POST is served; a missing,
   * non-array or empty `answers` gets 400 "Answers array is required";
   * otherwise the first bad answer gets 400 with its own message; every
   * request that passes these checks reaches the model.
   */
  lemma HandleValidation(verb: string, body: Option<Json>, flowers: string, ai: string -> Option<Json>)
    ensures var h := Handle(verb, body, flowers, ai);
      (h.Responded? && h.status == 405 <==> verb != "POST")
      && (verb == "POST" && body.Some? && !body.value.JNull? ==>
            (h.Responded? && h.status == 400 <==> !AcceptedAnswers(body.value))
            && (h.Responded? && h.status == 400 && h.body.error != AnswersRequired ==>
                  h.body.error == AnswerBlank || h.body.error == AnswerTooLong))
  {
    if verb == "POST" && body.Some? && !body.value.JNull? {
      AnswersValidation(Member(body, "answers"), flowers, ai);
      AnswersCheckMeaning(Member(body, "answers"));
    }
  }

  /** The checks on `answers` refuse (400) exactly the answers that are not all good. */
  lemma AnswersValidation(answers: Option<Json>, flowers: string, ai: string -> Option<Json>)
    ensures var h := HandleAnswers(answers, flowers, ai);
      (h.Responded? && h.status == 400 <==> AnswersCheck(answers).Some?)
      && (h.Responded? && h.status == 400 ==> h.body == ErrorBody(AnswersCheck(answers).value))
  {
  }

  /** The checks fail exactly on answers that are not all good, with one of the three messages. */
  lemma AnswersCheckMeaning(answers: Option<Json>)
    ensures AnswersCheck(answers).None? <==>
      answers.Some? && answers.value.JArr? && |answers.value.items| > 0
      && forall i :: 0 <= i < |answers.value.items| ==> GoodAnswer(answers.value.items[i])
    ensures AnswersCheck(answers) == None || AnswersCheck(answers) == Some(AnswersRequired)
      || AnswersCheck(answers) == Some(AnswerBlank) || AnswersCheck(answers) == Some(AnswerTooLong)
  {
    if answers.Some? && answers.value.JArr? && |answers.value.items| > 0 {
      FirstAnswerErrorKind(answers.value.items);
    }
  }

  /** The check passes exactly when every answer is good; otherwise it reports a blank or too long answer. */
  lemma FirstAnswerErrorKind(answers: seq<Json>)
    ensures FirstAnswerError(answers) == None <==> forall i :: 0 <= i < |answers| ==> GoodAnswer(answers[i])
    ensures FirstAnswerError(answers) == None || FirstAnswerError(answers) == Some(AnswerBlank)
      || FirstAnswerError(answers) == Some(AnswerTooLong)
  {
    var f := FirstBadFrom(answers, 0);
    if f < |answers| {
      assert !GoodAnswer(answers[f]);
    }
  }

  /**
   * A successful reply carries the model's profile, and exactly then a
   * record is saved: the same profile with the request's answers added.
   * The outcome of that write is not an input, so it cannot change the reply.
   */
  lemma HandleSaves(verb: string, body: Option<Json>, flowers: string, ai: string -> Option<Json>)
    ensures var h := Handle(verb, body, flowers, ai);
      h.Responded? ==>
        (h.saved.Some? <==> h.status == 200)
        && (h.status == 200 ==>
              h.body.DetailsBody?
              && AcceptedAnswers(body.value)
              && h.saved.value.JObj?
              && Get(h.saved.value.fields, "answers") == Some(Member(body, "answers").value)
              && forall k :: k != "answers" ==> Get(h.saved.value.fields, k) == Get(Spread(h.body.details), k))
  {
    var h := Handle(verb, body, flowers, ai);
    if h.Responded? && h.status == 200 {
      FirstAnswerErrorMeaning(Member(body, "answers").value.items);
    }
  }

  /**
   * A request that passes the checks gets the model's profile for the
   * prompt listing its answers in request order (200), or 500 when
   * generation fails.
   */
  lemma HandlePrompt(body: Json, flowers: string, ai: string -> Option<Json>)
    requires AcceptedAnswers(body)
    ensures var items := Member(Some(body), "answers").value.items;
      var details := ai(Prompt(Texts(items), flowers));
      var h := Handle("POST", Some(body), flowers, ai);
      (forall k :: 0 <= k < |items| ==> items[k] == JStr(Texts(items)[k]))
      && h.Responded?
      && (details.None? ==> h.status == 500 && h.body == ErrorBody(GenerationFailed))
      && (details.Some? ==> h.status == 200 && h.body == DetailsBody(details.value))
  {
    FirstAnswerErrorMeaning(Member(Some(body), "answers").value.items);
  }
}
