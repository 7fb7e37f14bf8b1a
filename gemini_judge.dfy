/**
 * The Gemini judge: reading the model's reply into a judgement, and the
 * retry loop around it.
 *
 * The reply is free text that should hold one JSON object. `json.loads` is
 * the parameter `decode`, and the API's successive replies are a sequence
 * given in advance (None where the API returned nothing). Every exception the
 * source catches inside `_parse_gemini_response` (a missing brace, bad JSON,
 * a value of the wrong type, a missing "RE" message) becomes `None`.
 */
module GeminiJudge {
  import opened Text
  import opened Models
  import ThemisJudge

  /** A JSON value as `json.loads` returns it. */
  datatype Json =
    | JNull
    | JBool(b: bool)
    | JNumber(d: Decimal)
    | JString(s: string)
    | JArray(items: seq<Json>)
    | JObject(fields: map<string, Json>)

  type Decoder = string -> Option<Json>

  // ---------------------------------------------------------------------
  // Python on JSON values
  // ---------------------------------------------------------------------

  /** `d.get(key, default)`. */
  function Get(fields: map<string, Json>, key: string, default: Json): Json {
    if key in fields then fields[key] else default
  }

  /** `float(v)`: numbers and booleans convert, strings are parsed, anything else raises. */
  function ToFloat(v: Json): Option<Decimal> {
    match v
    case JNumber(d) => Some(d)
    case JBool(b) => Some(Decimal(if b then 1 else 0, 0))
    case JString(s) => ParseDecimal(s)
    case _ => None
  }

  /** The integer part of `d`, rounded toward zero as Python's `int` of a float does. */
  function Truncate(d: Decimal): int {
    if d.mantissa >= 0 then DropDigits(d.mantissa, d.scale) else -DropDigits(-d.mantissa, d.scale)
  }

  /** `int(v)`: numbers are truncated, booleans convert, strings must spell an integer, anything else raises. */
  function ToInt(v: Json): Option<int> {
    match v
    case JNumber(d) => Some(Truncate(d))
    case JBool(b) => Some(if b then 1 else 0)
    case JString(s) => ParseInt(s)
    case _ => None
  }

  /** `not v`. */
  predicate Falsy(v: Json) {
    match v
    case JNull => true
    case JBool(b) => !b
    case JNumber(d) => d.mantissa == 0
    case JString(s) => s == ""
    case JArray(items) => items == []
    case JObject(fields) => fields == map[]
  }

  /**
   * `result_messages.get(v, result_messages["RE"])`: the default is looked up
   * first, so a missing "RE" raises; a list or an object cannot be a key; any
   * other value that is not a known code gets the RE message.
   */
  function VerdictMessage(msgs: ThemisJudge.Messages, v: Json): Option<string> {
    if "RE" !in msgs || v.JArray? || v.JObject? then None
    else if v.JString? && v.s in msgs then Some(msgs[v.s])
    else Some(msgs["RE"])
  }

  // ---------------------------------------------------------------------
  // What a reply means
  // ---------------------------------------------------------------------

  /** `response[response.find("{") : response.rfind("}") + 1]`, or None without a '{' or a '}'. */
  function JsonText(response: string): Option<string> {
    var start := Find(response, '{');
    var end := RFind(response, '}') + 1;
    if start == -1 || end == 0 then None else Some(Slice(response, start, end))
  }

  /** The decoded object of a reply, if it has one. */
  function Decoded(decode: Decoder, response: string): Option<map<string, Json>> {
    match JsonText(response)
    case None => None
    case Some(text) =>
      match decode(text)
      case Some(JObject(fields)) => Some(fields)
      case _ => None
  }

  /** One entry of "test_cases": points, message, and the time limit for TLE, else the estimate. */
  function TestOf(msgs: ThemisJudge.Messages, testCase: Json, timeLimitMs: int): Option<TestResult> {
    if !testCase.JObject? then None
    else
      var fields := testCase.fields;
      var points := ToFloat(Get(fields, "points", JNumber(Zero)));
      var verdict := Get(fields, "verdict", JString("RE"));
      var message := VerdictMessage(msgs, verdict);
      var time := if verdict == JString("TLE") then Some(timeLimitMs)
                  else ToInt(Get(fields, "estimated_execution_time", JNumber(Zero)));
      if points.None? || message.None? || time.None? then None
      else Some(TestResult(points.value, time.value, message.value))
  }

  /** Every entry in order, or None if one of them does not read. */
  function TestsOf(msgs: ThemisJudge.Messages, cases: seq<Json>, timeLimitMs: int): Option<seq<TestResult>> {
    if cases == [] then Some([])
    else
      match TestsOf(msgs, cases[..|cases| - 1], timeLimitMs)
      case None => None
      case Some(tests) =>
        match TestOf(msgs, cases[|cases| - 1], timeLimitMs)
        case None => None
        case Some(t) => Some(tests + [t])
  }

  /** `max(test.execution_time for test in tests, default=0)`. */
  function LargestTime(tests: seq<TestResult>): int {
    if tests == [] then 0
    else if |tests| == 1 then tests[0].executionTime
    else ThemisJudge.Max(LargestTime(tests[..|tests| - 1]), tests[|tests| - 1].executionTime)
  }

  /** What `_parse_gemini_response` returns for a reply. */
  function GeminiResult(msgs: ThemisJudge.Messages, decode: Decoder, response: string, timeLimit: Decimal): Option<JudgeResult> {
    match Decoded(decode, response)
    case None => None
    case Some(data) =>
      var total := ToFloat(Get(data, "total_points", JNumber(Zero)));
      var final := VerdictMessage(msgs, Get(data, "verdict", JString("RE")));
      var cases := Get(data, "test_cases", JArray([]));
      if total.None? || final.None? || Falsy(cases) || !cases.JArray? then None
      else
        match TestsOf(msgs, cases.items, Millis(timeLimit))
        case None => None
        case Some(tests) => Some(JudgeResult(total.value, LargestTime(tests), final.value, tests))
  }

  // ---------------------------------------------------------------------
  // The parser and the retry loop
  // ---------------------------------------------------------------------

  /** `_parse_gemini_response`. */
  method ParseGeminiResponse(msgs: ThemisJudge.Messages, decode: Decoder, response: string, timeLimit: Decimal)
    returns (r: Option<JudgeResult>)
    ensures r == GeminiResult(msgs, decode, response, timeLimit)
  {
    var jsonStart := Find(response, '{');
    var jsonEnd := RFind(response, '}') + 1;
    if jsonStart == -1 || jsonEnd == 0 {
      return None;
    }
    var data := decode(Slice(response, jsonStart, jsonEnd));
    if data.None? || !data.value.JObject? {
      return None;
    }
    var fields := data.value.fields;
    var totalPoints := ToFloat(Get(fields, "total_points", JNumber(Zero)));
    var finalMessage := VerdictMessage(msgs, Get(fields, "verdict", JString("RE")));
    var testCases := Get(fields, "test_cases", JArray([]));
    if totalPoints.None? || finalMessage.None? || Falsy(testCases) || !testCases.JArray? {
      return None;
    }
    var cases := testCases.items;
    var testsResult: seq<TestResult> := [];
    for i := 0 to |cases|
      invariant TestsOf(msgs, cases[..i], Millis(timeLimit)) == Some(testsResult)
    {
      assert cases[..i + 1][..i] == cases[..i];
      var test := ReadTestCase(msgs, cases[i], timeLimit);
      if test.None? {
        TestsOfStaysNone(msgs, cases, i + 1, Millis(timeLimit));
        return None;
      }
      testsResult := testsResult + [test.value];
    }
    assert cases[..|cases|] == cases;
    return Some(JudgeResult(totalPoints.value, LargestTime(testsResult), finalMessage.value, testsResult));
  }

  /** The body of the loop over "test_cases". */
  method ReadTestCase(msgs: ThemisJudge.Messages, testCase: Json, timeLimit: Decimal) returns (r: Option<TestResult>)
    ensures r == TestOf(msgs, testCase, Millis(timeLimit))
  {
    if !testCase.JObject? {
      return None;
    }
    var testPoints := ToFloat(Get(testCase.fields, "points", JNumber(Zero)));
    var testVerdict := Get(testCase.fields, "verdict", JString("RE"));
    var testMessage := VerdictMessage(msgs, testVerdict);
    if testPoints.None? || testMessage.None? {
      return None;
    }
    var executionTime := 0;
    if testVerdict == JString("TLE") {
      executionTime := Millis(timeLimit);
    } else {
      var estimate := ToInt(Get(testCase.fields, "estimated_execution_time", JNumber(Zero)));
      if estimate.None? {
        return None;
      }
      executionTime := estimate.value;
    }
    return Some(TestResult(testPoints.value, executionTime, testMessage.value));
  }

  /** Once an entry fails to read, the whole list does. */
  lemma {:induction false} TestsOfStaysNone(msgs: ThemisJudge.Messages, cases: seq<Json>, n: nat, timeLimitMs: int)
    requires n <= |cases| && TestsOf(msgs, cases[..n], timeLimitMs).None?
    ensures TestsOf(msgs, cases, timeLimitMs).None?
    decreases |cases|
  {
    if n < |cases| {
      var prefix := cases[..|cases| - 1];
      assert prefix[..n] == cases[..n];
      TestsOfStaysNone(msgs, prefix, n, timeLimitMs);
    } else {
      assert cases[..n] == cases;
    }
  }

  /** One attempt: a reply that is None fails, any other is parsed. */
  function Attempt(msgs: ThemisJudge.Messages, decode: Decoder, reply: Option<string>, timeLimit: Decimal)
    : Option<JudgeResult>
  {
    if reply.None? then None else GeminiResult(msgs, decode, reply.value, timeLimit)
  }

  /** The first success in a run of attempts, if there is one. */
  function FirstSome<T>(attempts: seq<Option<T>>): Option<T> {
    if attempts == [] then None
    else if attempts[0].Some? then attempts[0]
    else FirstSome(attempts[1..])
  }

  /** What the retry loop returns when the API gives `replies` in turn. */
  function FirstJudgement(msgs: ThemisJudge.Messages, decode: Decoder, replies: seq<Option<string>>, timeLimit: Decimal)
    : Option<JudgeResult>
  {
    FirstSome(seq(|replies|, k requires 0 <= k < |replies| => Attempt(msgs, decode, replies[k], timeLimit)))
  }

  /**
   * `judge_submission`: ask again until a reply is not None and parses. The
   * source asks forever; here the replies run out, and then the result is None.
   */
  method JudgeSubmission(msgs: ThemisJudge.Messages, decode: Decoder, replies: seq<Option<string>>, timeLimit: Decimal)
    returns (r: Option<JudgeResult>)
    ensures r == FirstJudgement(msgs, decode, replies, timeLimit)
  {
    ghost var attempts := seq(|replies|, k requires 0 <= k < |replies| => Attempt(msgs, decode, replies[k], timeLimit));
    var i := 0;
    while i < |replies|
      invariant 0 <= i <= |replies|
      invariant FirstSome(attempts) == FirstSome(attempts[i..])
    {
      assert attempts[i..][1..] == attempts[i + 1..];
      var response := replies[i];
      if response.Some? {
        var result := ParseGeminiResponse(msgs, decode, response.value, timeLimit);
        if result.Some? {
          return result;
        }
      }
      i := i + 1;
    }
    return None;
  }

  // ---------------------------------------------------------------------
  // Properties
  // ---------------------------------------------------------------------

  /**
   * The JSON text is there exactly when the reply has a '{' and a '}'. It
   * runs from the first '{' to the last '}', both included, when these come
   * in that order; otherwise it is empty.
   */
  lemma JsonTextBraces(response: string)
    ensures JsonText(response).Some? <==> '{' in response && '}' in response
    ensures JsonText(response).Some? ==>
      var i, j, t := Find(response, '{'), RFind(response, '}'), JsonText(response).value;
      (i < j ==> t == response[i..j + 1] && t[0] == '{' && t[|t| - 1] == '}'
                 && '{' !in response[..i] && '}' !in response[j + 1..])
      && (j < i ==> t == "")
  {
  }

  /** A read list has one test per entry, in order, each as `TestOf` reads it. */
  lemma {:induction false} TestsOfEntries(msgs: ThemisJudge.Messages, cases: seq<Json>, timeLimitMs: int)
    ensures TestsOf(msgs, cases, timeLimitMs).Some? <==>
      forall k :: 0 <= k < |cases| ==> TestOf(msgs, cases[k], timeLimitMs).Some?
    ensures TestsOf(msgs, cases, timeLimitMs).Some? ==>
      var tests := TestsOf(msgs, cases, timeLimitMs).value;
      |tests| == |cases| && forall k :: 0 <= k < |cases| ==> TestOf(msgs, cases[k], timeLimitMs) == Some(tests[k])
    decreases |cases|
  {
    if cases != [] {
      var prefix := cases[..|cases| - 1];
      TestsOfEntries(msgs, prefix, timeLimitMs);
      assert forall k :: 0 <= k < |prefix| ==> prefix[k] == cases[k];
    }
  }

  /** The largest time is one of the times, and no time is larger; with no tests it is 0. */
  lemma {:induction false} LargestTimeIsMax(tests: seq<TestResult>)
    ensures tests == [] ==> LargestTime(tests) == 0
    ensures forall k :: 0 <= k < |tests| ==> tests[k].executionTime <= LargestTime(tests)
    ensures tests != [] ==> exists k :: 0 <= k < |tests| && tests[k].executionTime == LargestTime(tests)
    decreases |tests|
  {
    if |tests| > 1 {
      var prefix := tests[..|tests| - 1];
      LargestTimeIsMax(prefix);
      assert forall k :: 0 <= k < |prefix| ==> prefix[k] == tests[k];
      var k :| 0 <= k < |prefix| && prefix[k].executionTime == LargestTime(prefix);
      if tests[|tests| - 1].executionTime <= LargestTime(prefix) {
        assert tests[k].executionTime == LargestTime(tests);
      } else {
        assert tests[|tests| - 1].executionTime == LargestTime(tests);
      }
    } else if |tests| == 1 {
      assert tests[0].executionTime == LargestTime(tests);
    }
  }

  /**
   * A judgement is read from a decoded object whose "test_cases" is a
   * non-empty list: one test per entry, in order; the total is the float of
   * "total_points" (0 when absent); the final message is the message of the
   * top-level "verdict" ("RE" when absent); the time is the largest test time.
   */
  lemma GeminiResultShape(msgs: ThemisJudge.Messages, decode: Decoder, response: string, timeLimit: Decimal)
    requires GeminiResult(msgs, decode, response, timeLimit).Some?
    ensures var data, j := Decoded(decode, response).value, GeminiResult(msgs, decode, response, timeLimit).value;
      var cases := Get(data, "test_cases", JArray([]));
      "test_cases" in data && cases.JArray? && |cases.items| >= 1
      && |j.testsResult| == |cases.items|
      && (forall k :: 0 <= k < |cases.items| ==> TestOf(msgs, cases.items[k], Millis(timeLimit)) == Some(j.testsResult[k]))
      && Some(j.totalPoints) == ToFloat(Get(data, "total_points", JNumber(Zero)))
      && Some(j.finalMessage) == VerdictMessage(msgs, Get(data, "verdict", JString("RE")))
      && (forall k :: 0 <= k < |j.testsResult| ==> j.testsResult[k].executionTime <= j.maxExecutionTime)
      && exists k :: 0 <= k < |j.testsResult| && j.testsResult[k].executionTime == j.maxExecutionTime
  {
    var data := Decoded(decode, response).value;
    var cases := Get(data, "test_cases", JArray([]));
    TestsOfEntries(msgs, cases.items, Millis(timeLimit));
    LargestTimeIsMax(TestsOf(msgs, cases.items, Millis(timeLimit)).value);
  }

  /** With "test_cases" absent or empty there is no judgement, whatever else the reply says. */
  lemma NoTestCasesNoResult(msgs: ThemisJudge.Messages, decode: Decoder, response: string, timeLimit: Decimal)
    requires Decoded(decode, response).Some?
    requires var data := Decoded(decode, response).value;
      "test_cases" !in data || data["test_cases"] == JArray([])
    ensures GeminiResult(msgs, decode, response, timeLimit).None?
  {
  }

  /** A known code gets its message, any other code the RE message; a test with no verdict reads as RE. */
  lemma VerdictMessages(msgs: ThemisJudge.Messages, code: string)
    requires "RE" in msgs
    ensures VerdictMessage(msgs, JString(code)) == Some(if code in msgs then msgs[code] else msgs["RE"])
    ensures VerdictMessage(msgs, Get(map[], "verdict", JString("RE"))) == Some(msgs["RE"])
  {
  }

  /** A TLE test takes the time limit in milliseconds, whatever its estimate says, even an unreadable one. */
  lemma TleIgnoresEstimate(msgs: ThemisJudge.Messages, fields: map<string, Json>, timeLimitMs: int, e1: Json, e2: Json)
    requires Get(fields, "verdict", JString("RE")) == JString("TLE")
    ensures TestOf(msgs, JObject(fields["estimated_execution_time" := e1]), timeLimitMs)
         == TestOf(msgs, JObject(fields["estimated_execution_time" := e2]), timeLimitMs)
    ensures TestOf(msgs, JObject(fields), timeLimitMs).Some? ==>
      TestOf(msgs, JObject(fields), timeLimitMs).value.executionTime == timeLimitMs
  {
    var f1, f2 := fields["estimated_execution_time" := e1], fields["estimated_execution_time" := e2];
    assert Get(f1, "verdict", JString("RE")) == JString("TLE");
    assert Get(f2, "verdict", JString("RE")) == JString("TLE");
    assert Get(f1, "points", JNumber(Zero)) == Get(f2, "points", JNumber(Zero));
  }

  /** Any other test takes `int` of its estimate, and 0 when it gives none. */
  lemma OtherTestsUseEstimate(msgs: ThemisJudge.Messages, fields: map<string, Json>, timeLimitMs: int)
    requires Get(fields, "verdict", JString("RE")) != JString("TLE")
    requires TestOf(msgs, JObject(fields), timeLimitMs).Some?
    ensures var time := TestOf(msgs, JObject(fields), timeLimitMs).value.executionTime;
      ("estimated_execution_time" in fields ==> ToInt(fields["estimated_execution_time"]) == Some(time))
      && ("estimated_execution_time" !in fields ==> time == 0)
  {
    assert Truncate(Zero) == 0;
  }

  /** The final message depends on the top-level verdict only, not on the tests' verdicts. */
  lemma FinalMessageIgnoresTests(msgs: ThemisJudge.Messages, decode: Decoder, a: string, b: string, timeLimit: Decimal)
    requires Decoded(decode, a).Some? && Decoded(decode, b).Some?
    requires Get(Decoded(decode, a).value, "verdict", JString("RE")) == Get(Decoded(decode, b).value, "verdict", JString("RE"))
    requires GeminiResult(msgs, decode, a, timeLimit).Some? && GeminiResult(msgs, decode, b, timeLimit).Some?
    ensures GeminiResult(msgs, decode, a, timeLimit).value.finalMessage
         == GeminiResult(msgs, decode, b, timeLimit).value.finalMessage
  {
  }

  /** The first success is a success with only failures before it; there is none only when every attempt fails. */
  lemma {:induction false} FirstSomeIsFirst<T>(attempts: seq<Option<T>>)
    ensures FirstSome(attempts).None? <==> forall k :: 0 <= k < |attempts| ==> attempts[k].None?
    ensures FirstSome(attempts).Some? ==>
      exists k :: 0 <= k < |attempts| && attempts[k] == FirstSome(attempts)
        && forall i :: 0 <= i < k ==> attempts[i].None?
    decreases |attempts|
  {
    if attempts != [] && attempts[0].None? {
      var rest := attempts[1..];
      FirstSomeIsFirst(rest);
      assert forall k :: 0 <= k < |rest| ==> rest[k] == attempts[k + 1];
      if FirstSome(rest).Some? {
        var k :| 0 <= k < |rest| && rest[k] == FirstSome(rest) && forall i :: 0 <= i < k ==> rest[i].None?;
        assert attempts[k + 1] == FirstSome(attempts);
      }
    }
  }

  /**
   * `judge_submission` returns the reading of the first reply that is not
   * None and parses, every earlier reply having failed; it returns None only
   * when every reply fails.
   */
  lemma FirstJudgementIsFirst(msgs: ThemisJudge.Messages, decode: Decoder, replies: seq<Option<string>>,
    timeLimit: Decimal)
    ensures FirstJudgement(msgs, decode, replies, timeLimit).None? <==>
      forall k :: 0 <= k < |replies| ==> Attempt(msgs, decode, replies[k], timeLimit).None?
    ensures FirstJudgement(msgs, decode, replies, timeLimit).Some? ==>
      exists k :: 0 <= k < |replies| && Attempt(msgs, decode, replies[k], timeLimit) == FirstJudgement(msgs, decode, replies, timeLimit)
        && forall i :: 0 <= i < k ==> Attempt(msgs, decode, replies[i], timeLimit).None?
  {
    var attempts := seq(|replies|, k requires 0 <= k < |replies| => Attempt(msgs, decode, replies[k], timeLimit));
    assert forall k :: 0 <= k < |replies| ==> attempts[k] == Attempt(msgs, decode, replies[k], timeLimit);
    FirstSomeIsFirst(attempts);
  }
}
