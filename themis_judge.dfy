/**
 * The Themis log parser: turns the runner's line-oriented log into a
 * JudgeResult. The functions state what a log means; the methods walk the
 * log with the same loops as the parser and are proved to compute it.
 */
module ThemisJudge {
  import opened Text
  import opened Models

  /** U+2023, the bullet that starts every test block. */
  const Sentinel: char := '\U{2023}'
  /** The line that ends the compiler output. */
  const CompileFailed := "Dịch lỗi!"
  /** Compile-error messages are cut to this many characters. */
  const MaxMessage := 10000

  /** The non-passing verdict codes looked for in each line, in priority order. */
  const Markers: seq<string> := ["WA", "RE", "TLE", "NOF"]

  /** The configured verdict texts, keyed by verdict code. */
  type Messages = map<string, string>

  /** The codes the parser looks up (a missing one is a KeyError in the configuration). */
  predicate KnowsCodes(msgs: Messages, markers: seq<string>) {
    "AC" in msgs && "CE" in msgs && "RE" in msgs && "TLE" in msgs
    && forall m | m in markers :: m in msgs
  }

  /** What makes parsing raise instead of returning. */
  datatype ParseError =
    | HeaderMissing    // the log has no second line
    | HeaderMalformed  // the second line does not split on '.' into two parts
    | NameMismatch     // the second line names another problem
    | BadNumber        // float() or int() rejects a token

  /** `float(tok.replace(",", "."))`: numbers in the log use a decimal comma. */
  function ParseLocaleDecimal(tok: string): Option<Decimal> {
    ParseDecimal(ReplaceAll(tok, ",", "."))
  }

  /** `line.split(" ")[-1]`: the text after the last space. */
  function LastWord(line: string): string {
    var words := Split(line, ' ');
    words[|words| - 1]
  }

  function Max(a: int, b: int): int { if a >= b then a else b }

  // ---------------------------------------------------------------------
  // The header
  // ---------------------------------------------------------------------

  /** The second line is `<problem>.<language>` for the expected problem; yields the language. */
  function Header(logs: seq<string>, name: string): Result<string, ParseError> {
    if |logs| < 2 then Err(HeaderMissing)
    else
      var parts := Split(logs[1], '.');
      if |parts| != 2 then Err(HeaderMalformed)
      else if parts[0] != name then Err(NameMismatch)
      else Ok(parts[1])
  }

  // ---------------------------------------------------------------------
  // The compile-error path
  // ---------------------------------------------------------------------

  /** One compiler line as it enters the message: the file name renamed to "main", or Pascal noise dropped. */
  function CompileErrorLine(line: string, name: string, language: string): Option<string> {
    if Split(line, '.')[0] == name then Some(ReplaceFirst(line, name, "main"))
    else if Split(line, ' ')[0] == "Error:" && language == "pas" then None
    else Some(line)
  }

  /** The text appended for lines `i` up to (not including) the last line, stopping at "Dịch lỗi!". */
  function CompileErrorBody(logs: seq<string>, i: nat, name: string, language: string): string
    decreases |logs| - i
  {
    if i + 1 >= |logs| || logs[i] == CompileFailed then ""
    else
      match CompileErrorLine(logs[i], name, language)
      case None => CompileErrorBody(logs, i + 1, name, language)
      case Some(l) => "\n" + l + CompileErrorBody(logs, i + 1, name, language)
  }

  function Truncate(m: string): string {
    if |m| > MaxMessage then m[..MaxMessage] + "..." else m
  }

  /** The single message of a compile error: the CE text, then the compiler lines from index 3. */
  function CompileErrorMessage(ce: string, logs: seq<string>, name: string, language: string): string {
    Truncate(ce + CompileErrorBody(logs, 3, name, language))
  }

  // ---------------------------------------------------------------------
  // The test-block path
  // ---------------------------------------------------------------------

  predicate IsSentinel(line: string) { Sentinel in line }

  /** The first sentinel line at or after `i`, or the end of the log. */
  function NextSentinel(logs: seq<string>, i: nat): (j: nat)
    ensures i <= j && (i <= |logs| ==> j <= |logs|)
    ensures j < |logs| ==> IsSentinel(logs[j])
    ensures forall k :: i <= k < j && k < |logs| ==> !IsSentinel(logs[k])
    decreases |logs| - i
  {
    if i >= |logs| || IsSentinel(logs[i]) then i else NextSentinel(logs, i + 1)
  }

  /** The running verdict after the markers of `markers[c..]` are tried on `line`; only an AC verdict can change. */
  function MarkersFrom(msgs: Messages, markers: seq<string>, c: nat, line: string, message: string): string
    requires KnowsCodes(msgs, markers)
    decreases |markers| - c
  {
    if c >= |markers| then message
    else
      var m := markers[c];
      MarkersFrom(msgs, markers, c + 1, line,
        if Contains(line, msgs[m]) && message == msgs["AC"] then msgs[m] else message)
  }

  /** `words[:2] == ["Thời", "gian"]`. */
  predicate IsTimeLine(words: seq<string>) {
    |words| >= 2 && words[0] == "Thời" && words[1] == "gian"
  }

  /** The exit code after scanning the word positions `idx .. len(words) - 4` for "exit" "code:". */
  function ExitFrom(words: seq<string>, idx: nat, code: int): Result<int, ParseError>
    decreases |words| - idx
  {
    if idx + 3 >= |words| then Ok(code)
    else if words[idx] == "exit" && words[idx + 1] == "code:" then
      match ParseInt(words[idx + 2])
      case None => Err(BadNumber)
      case Some(n) => ExitFrom(words, idx + 1, n)
    else ExitFrom(words, idx + 1, code)
  }

  /** What the parser carries from line to line inside a block. */
  datatype Scan = Scan(message: string, time: int, exitCode: int)

  /** One line of a block: markers, then the time line, then the exit code. */
  function ScanLine(msgs: Messages, markers: seq<string>, st: Scan, line: string): Result<Scan, ParseError>
    requires KnowsCodes(msgs, markers)
  {
    var words := Split(line, ' ');
    match LineTime(words, st.time)
    case None => Err(BadNumber)
    case Some(time) =>
      match ExitFrom(words, 0, st.exitCode)
      case Err(e) => Err(e)
      case Ok(x) => Ok(Scan(MarkersFrom(msgs, markers, 0, line, st.message), time, x))
  }

  /** The time after one line: a time line replaces it by its second-to-last word, in milliseconds. */
  function LineTime(words: seq<string>, time: int): Option<int> {
    if IsTimeLine(words) then
      match ParseLocaleDecimal(words[|words| - 2])
      case None => None
      case Some(d) => Some(Millis(d))
    else Some(time)
  }

  /** Lines `k .. end - 1`, starting from state `st`. */
  function ScanLines(msgs: Messages, markers: seq<string>, logs: seq<string>, k: nat, end: nat, st: Scan)
    : Result<Scan, ParseError>
    requires KnowsCodes(msgs, markers)
    requires k <= end <= |logs|
    decreases end - k
  {
    if k == end then Ok(st)
    else
      match ScanLine(msgs, markers, st, logs[k])
      case Err(e) => Err(e)
      case Ok(next) => ScanLines(msgs, markers, logs, k + 1, end, next)
  }

  /** One test block before its message gets the exit-code suffix. */
  datatype Block = Block(points: Decimal, time: int, verdict: string, exitCode: int)

  /** The block of lines `i .. end - 1`; line `i` is its sentinel and ends with the points. */
  function BlockAt(msgs: Messages, markers: seq<string>, logs: seq<string>, i: nat, end: nat, timeLimitMs: int)
    : Result<Block, ParseError>
    requires KnowsCodes(msgs, markers)
    requires i < end <= |logs|
  {
    match ParseLocaleDecimal(LastWord(logs[i]))
    case None => Err(BadNumber)
    case Some(p) =>
      match ScanLines(msgs, markers, logs, i, end, Scan(msgs["AC"], 0, 0))
      case Err(e) => Err(e)
      case Ok(st) => Ok(Block(p, if st.message == msgs["TLE"] then timeLimitMs else st.time, st.message, st.exitCode))
  }

  /** Every block from line `i` on, each running to the line before the next sentinel. */
  function BlocksFrom(msgs: Messages, markers: seq<string>, logs: seq<string>, i: nat, timeLimitMs: int)
    : Result<seq<Block>, ParseError>
    requires KnowsCodes(msgs, markers)
    decreases |logs| - i
  {
    if i >= |logs| then Ok([])
    else
      var end := NextSentinel(logs, i + 1);
      match BlockAt(msgs, markers, logs, i, end, timeLimitMs)
      case Err(e) => Err(e)
      case Ok(b) =>
        match BlocksFrom(msgs, markers, logs, end, timeLimitMs)
        case Err(e) => Err(e)
        case Ok(bs) => Ok([b] + bs)
  }

  /** A runtime error's message carries the exit code; every other verdict is reported as is. */
  function ToTestResult(msgs: Messages, b: Block): TestResult
    requires "RE" in msgs
  {
    TestResult(b.points, b.time,
      if b.verdict == msgs["RE"] then b.verdict + " (exit code: " + IntToString(b.exitCode) + ")" else b.verdict)
  }

  function TestsOf(msgs: Messages, bs: seq<Block>): (r: seq<TestResult>)
    requires "RE" in msgs
    ensures |r| == |bs|
    ensures forall k :: 0 <= k < |bs| ==> r[k] == ToTestResult(msgs, bs[k])
  {
    seq(|bs|, k requires 0 <= k < |bs| => ToTestResult(msgs, bs[k]))
  }

  lemma TestsOfAppend(msgs: Messages, bs: seq<Block>, b: Block)
    requires "RE" in msgs
    ensures TestsOf(msgs, bs + [b]) == TestsOf(msgs, bs) + [ToTestResult(msgs, b)]
  {
    assert forall k :: 0 <= k < |bs| ==> (bs + [b])[k] == bs[k];
  }

  /** `max_execution_time`: starts at 0 and takes the maximum block by block. */
  function MaxTime(bs: seq<Block>): int
  {
    if bs == [] then 0 else Max(MaxTime(bs[..|bs| - 1]), bs[|bs| - 1].time)
  }

  /** The verdict of the first block that is not AC, if any. */
  function FirstFailure(msgs: Messages, bs: seq<Block>): Option<string>
    requires "AC" in msgs
  {
    if bs == [] then None
    else
      match FirstFailure(msgs, bs[..|bs| - 1])
      case Some(m) => Some(m)
      case None => if bs[|bs| - 1].verdict != msgs["AC"] then Some(bs[|bs| - 1].verdict) else None
  }

  /** The tests, the largest time and the final message of the test-block path. */
  datatype Outcome = Outcome(tests: seq<TestResult>, maxTime: int, finalMessage: string)

  function TestOutcome(msgs: Messages, markers: seq<string>, logs: seq<string>, timeLimitMs: int)
    : Result<Outcome, ParseError>
    requires KnowsCodes(msgs, markers)
  {
    match BlocksFrom(msgs, markers, logs, NextSentinel(logs, 1), timeLimitMs)
    case Err(e) => Err(e)
    case Ok(bs) => Ok(Outcome(TestsOf(msgs, bs), MaxTime(bs), GetOr(FirstFailure(msgs, bs), msgs["AC"])))
  }

  // ---------------------------------------------------------------------
  // The whole log
  // ---------------------------------------------------------------------

  /** What `parse_log` returns for `log`, or the error it raises. */
  function LogResult(msgs: Messages, markers: seq<string>, log: string, problem: ProblemData)
    : Result<JudgeResult, ParseError>
    requires KnowsCodes(msgs, markers)
  {
    ReadLog(msgs, log, problem, TestOutcome(msgs, markers, Split(log, '\n'), problem.TimeLimitMs()))
  }

  /**
   * `parse_log` around its test blocks: the header check, then the
   * compile-error path, or the total points and what the blocks read as
   * (`blocks`, consulted only on that path).
   */
  function ReadLog(msgs: Messages, log: string, problem: ProblemData, blocks: Result<Outcome, ParseError>)
    : Result<JudgeResult, ParseError>
    requires "CE" in msgs
  {
    var logs := Split(log, '\n');
    match Header(logs, problem.name)
    case Err(e) => Err(e)
    case Ok(language) =>
      if Contains(log, msgs["CE"]) then
        var message := CompileErrorMessage(msgs["CE"], logs, problem.name, language);
        Ok(JudgeResult(Zero, 0, msgs["CE"], [TestResult(Zero, 0, message)]))
      else
        match ParseLocaleDecimal(LastWord(logs[0]))
        case None => Err(BadNumber)
        case Some(total) =>
          match blocks
          case Err(e) => Err(e)
          case Ok(o) => Ok(JudgeResult(total, o.maxTime, o.finalMessage, o.tests))
  }

  /** Attaches the blocks already parsed to the result of parsing the rest. */
  function Prepend(done: seq<Block>, rest: Result<seq<Block>, ParseError>): Result<seq<Block>, ParseError> {
    match rest
    case Err(e) => Err(e)
    case Ok(bs) => Ok(done + bs)
  }

  lemma PrependNothing(rest: Result<seq<Block>, ParseError>)
    ensures Prepend([], rest) == rest
  {
    if rest.Ok? {
      assert [] + rest.value == rest.value;
    }
  }

  /** A block that fails to parse fails the whole log. */
  lemma BlocksFromFails(msgs: Messages, markers: seq<string>, logs: seq<string>, i: nat, timeLimitMs: int, e: ParseError)
    requires KnowsCodes(msgs, markers)
    requires i < |logs|
    requires BlockAt(msgs, markers, logs, i, NextSentinel(logs, i + 1), timeLimitMs) == Err(e)
    ensures BlocksFrom(msgs, markers, logs, i, timeLimitMs) == Err(e)
  {
  }

  /** The block at a sentinel line comes first, then the blocks after it. */
  lemma {:induction false} BlocksFromStep(msgs: Messages, markers: seq<string>, logs: seq<string>, i: nat,
    timeLimitMs: int, b: Block, done: seq<Block>)
    requires KnowsCodes(msgs, markers)
    requires i < |logs|
    requires BlockAt(msgs, markers, logs, i, NextSentinel(logs, i + 1), timeLimitMs) == Ok(b)
    ensures Prepend(done, BlocksFrom(msgs, markers, logs, i, timeLimitMs))
         == Prepend(done + [b], BlocksFrom(msgs, markers, logs, NextSentinel(logs, i + 1), timeLimitMs))
  {
    var rest := BlocksFrom(msgs, markers, logs, NextSentinel(logs, i + 1), timeLimitMs);
    if rest.Ok? {
      assert done + ([b] + rest.value) == (done + [b]) + rest.value;
    }
  }

  // ---------------------------------------------------------------------
  // The parser's loops
  // ---------------------------------------------------------------------

  /** `ThemisJudge.parse_log`. */
  method ParseLog(msgs: Messages, log: string, problem: ProblemData) returns (r: Result<JudgeResult, ParseError>)
    requires KnowsCodes(msgs, Markers)
    ensures r == LogResult(msgs, Markers, log, problem)
  {
    var logs := Split(log, '\n');
    if |logs| < 2 {
      return Err(HeaderMissing);
    }
    var parts := Split(logs[1], '.');
    if |parts| != 2 {
      return Err(HeaderMalformed);
    }
    var problemName, language := parts[0], parts[1];
    if problemName != problem.name {
      return Err(NameMismatch);
    }

    var totalPoints := Zero;
    var maxExecutionTime := 0;
    var finalMessage := "";
    var testsResult: seq<TestResult> := [];

    if Contains(log, msgs["CE"]) {
      finalMessage := msgs["CE"];
      var message := ParseCompilationError(msgs["CE"], logs, problemName, language);
      testsResult := [TestResult(Zero, 0, message)];
    } else {
      var total := ParseLocaleDecimal(LastWord(logs[0]));
      if total.None? {
        return Err(BadNumber);
      }
      totalPoints := total.value;
      var outcome := ParseTestResults(msgs, Markers, logs, problem.TimeLimitMs());
      if outcome.Err? {
        return Err(outcome.error);
      }
      testsResult, maxExecutionTime, finalMessage :=
        outcome.value.tests, outcome.value.maxTime, outcome.value.finalMessage;
    }
    r := Ok(JudgeResult(totalPoints, maxExecutionTime, finalMessage, testsResult));
  }

  /** `_parse_compilation_error`: renames lines in the parser's own copy of the log as it goes. */
  method ParseCompilationError(ce: string, logs: seq<string>, problemName: string, language: string)
    returns (message: string)
    ensures message == CompileErrorMessage(ce, logs, problemName, language)
  {
    var lines := logs;
    message := ce;
    var i := 3;
    while i < |lines| - 1
      invariant 3 <= i && |lines| == |logs|
      invariant forall k :: i <= k < |logs| ==> lines[k] == logs[k]
      invariant ce + CompileErrorBody(logs, 3, problemName, language)
             == message + CompileErrorBody(logs, i, problemName, language)
      decreases |lines| - i
    {
      if lines[i] == CompileFailed {
        break;
      }
      var kept, line := RenameCompilerLine(lines[i], problemName, language);
      if !kept {
        i := i + 1;
        continue;
      }
      lines := lines[i := line];
      message := message + "\n" + lines[i];
      i := i + 1;
    }
    message := if |message| > MaxMessage then message[..MaxMessage] + "..." else message;
  }

  /** The branches of one loop turn of `_parse_compilation_error`: rename the file, drop Pascal noise, or keep. */
  method RenameCompilerLine(line: string, problemName: string, language: string) returns (kept: bool, renamed: string)
    ensures CompileErrorLine(line, problemName, language) == (if kept then Some(renamed) else None)
  {
    kept, renamed := true, line;
    if Split(line, '.')[0] == problemName {
      renamed := ReplaceFirst(line, problemName, "main");
    } else if Split(line, ' ')[0] == "Error:" && language == "pas" {
      kept := false;
    }
  }

  /** `_parse_test_results`: finds the first sentinel, then walks block by block and line by line. */
  method ParseTestResults(msgs: Messages, markers: seq<string>, logs: seq<string>, timeLimitMs: int)
    returns (r: Result<Outcome, ParseError>)
    requires KnowsCodes(msgs, markers)
    ensures r == TestOutcome(msgs, markers, logs, timeLimitMs)
  {
    var testsResult: seq<TestResult> := [];
    var maxExecutionTime := 0;
    var finalMessage: Option<string> := None;
    ghost var done: seq<Block> := [];

    var i := SkipToSentinel(logs, 1);
    ghost var first := i;
    assert BlocksFrom(msgs, markers, logs, first, timeLimitMs) == Prepend(done, BlocksFrom(msgs, markers, logs, i, timeLimitMs)) by {
      PrependNothing(BlocksFrom(msgs, markers, logs, i, timeLimitMs));
    }

    while i < |logs|
      invariant first <= i
      invariant BlocksFrom(msgs, markers, logs, first, timeLimitMs)
             == Prepend(done, BlocksFrom(msgs, markers, logs, i, timeLimitMs))
      invariant testsResult == TestsOf(msgs, done)
      invariant maxExecutionTime == MaxTime(done)
      invariant finalMessage == FirstFailure(msgs, done)
      decreases |logs| - i
    {
      var end, parsed := NextBlock(msgs, markers, logs, i, timeLimitMs, done);
      if parsed.Err? {
        return Err(parsed.error);
      }
      var block := parsed.value;
      testsResult, maxExecutionTime, finalMessage := RecordBlock(msgs, done, block, testsResult, maxExecutionTime, finalMessage);
      done := done + [block];
      i := end;
    }

    assert done + [] == done;
    assert BlocksFrom(msgs, markers, logs, first, timeLimitMs) == Ok(done);
    if finalMessage.None? {
      finalMessage := Some(msgs["AC"]);
    }
    r := Ok(Outcome(testsResult, maxExecutionTime, finalMessage.value));
  }

  /**
   * The block whose sentinel is line `i`: it runs to the line before the
   * next sentinel, and either it parses and the blocks after it follow, or
   * its error is the error of the whole log.
   */
  method NextBlock(msgs: Messages, markers: seq<string>, logs: seq<string>, i: nat, timeLimitMs: int, ghost done: seq<Block>)
    returns (end: nat, parsed: Result<Block, ParseError>)
    requires KnowsCodes(msgs, markers)
    requires i < |logs|
    ensures i < end <= |logs|
    ensures parsed.Err? ==> BlocksFrom(msgs, markers, logs, i, timeLimitMs) == Err(parsed.error)
    ensures parsed.Ok? ==>
      Prepend(done, BlocksFrom(msgs, markers, logs, i, timeLimitMs))
      == Prepend(done + [parsed.value], BlocksFrom(msgs, markers, logs, end, timeLimitMs))
  {
    // The block is lines i ..= j with j = end - 1, the line before the next sentinel.
    end := SkipToSentinel(logs, i + 1);
    parsed := ParseBlock(msgs, markers, logs, i, end, timeLimitMs);
    if parsed.Err? {
      BlocksFromFails(msgs, markers, logs, i, timeLimitMs, parsed.error);
    } else {
      BlocksFromStep(msgs, markers, logs, i, timeLimitMs, parsed.value, done);
    }
  }

  /** The body of the block loop of `_parse_test_results`: record the test, the largest time and the first failure. */
  method RecordBlock(msgs: Messages, ghost done: seq<Block>, block: Block,
                     testsResult: seq<TestResult>, maxExecutionTime: int, finalMessage: Option<string>)
    returns (testsResult': seq<TestResult>, maxExecutionTime': int, finalMessage': Option<string>)
    requires "AC" in msgs && "RE" in msgs
    requires testsResult == TestsOf(msgs, done) && maxExecutionTime == MaxTime(done)
    requires finalMessage == FirstFailure(msgs, done)
    ensures testsResult' == TestsOf(msgs, done + [block]) && maxExecutionTime' == MaxTime(done + [block])
    ensures finalMessage' == FirstFailure(msgs, done + [block])
  {
    var executionTime, message := block.time, block.verdict;
    maxExecutionTime' := Max(maxExecutionTime, executionTime);
    finalMessage' := finalMessage;
    if message != msgs["AC"] && finalMessage.None? {
      finalMessage' := Some(message);
    }
    if message == msgs["RE"] {
      message := message + " (exit code: " + IntToString(block.exitCode) + ")";
    }
    testsResult' := testsResult + [TestResult(block.points, executionTime, message)];
    assert (done + [block])[..|done|] == done;
    TestsOfAppend(msgs, done, block);
  }

  /** Scanning lines `k ..` is scanning line `k`, then the rest from where it left off. */
  lemma ScanLinesStep(msgs: Messages, markers: seq<string>, logs: seq<string>, k: nat, end: nat, st: Scan)
    requires KnowsCodes(msgs, markers)
    requires k < end <= |logs|
    ensures ScanLines(msgs, markers, logs, k, end, st)
         == match ScanLine(msgs, markers, st, logs[k])
            case Err(e) => Err(e)
            case Ok(next) => ScanLines(msgs, markers, logs, k + 1, end, next)
  {
  }

  /** The body of the line loop of `_parse_test_results`: verdict markers, time line, exit code. */
  method ScanBlockLine(msgs: Messages, markers: seq<string>, st: Scan, line: string)
    returns (r: Result<Scan, ParseError>)
    requires KnowsCodes(msgs, markers)
    ensures r == ScanLine(msgs, markers, st, line)
  {
    var words := Split(line, ' ');
    var message := ScanMarkers(msgs, markers, line, st.message);
    var time := ScanTime(words, st.time);
    if time.None? {
      return Err(BadNumber);
    }
    var exit := ScanExitCode(words, st.exitCode);
    if exit.Err? {
      return Err(exit.error);
    }
    r := Ok(Scan(message, time.value, exit.value));
  }

  /** The innermost loop of `_parse_test_results`: the last "exit" "code:" pair that has a word after the code. */
  method ScanExitCode(words: seq<string>, code: int) returns (r: Result<int, ParseError>)
    ensures r == ExitFrom(words, 0, code)
  {
    var exitCode := code;
    var idx := 0;
    while idx + 3 < |words|
      invariant ExitFrom(words, 0, code) == ExitFrom(words, idx, exitCode)
      decreases |words| - idx
    {
      if words[idx] == "exit" && words[idx + 1] == "code:" {
        var n := ParseInt(words[idx + 2]);
        if n.None? {
          return Err(BadNumber);
        }
        exitCode := n.value;
      }
      idx := idx + 1;
    }
    r := Ok(exitCode);
  }

  /** The marker loop of `_parse_test_results`: the first marker found in an AC line becomes the verdict. */
  method ScanMarkers(msgs: Messages, markers: seq<string>, line: string, verdict: string) returns (message: string)
    requires KnowsCodes(msgs, markers)
    ensures message == MarkersFrom(msgs, markers, 0, line, verdict)
  {
    message := verdict;
    for c := 0 to |markers|
      invariant MarkersFrom(msgs, markers, 0, line, verdict) == MarkersFrom(msgs, markers, c, line, message)
    {
      if Contains(line, msgs[markers[c]]) && message == msgs["AC"] {
        message := msgs[markers[c]];
      }
    }
  }

  /** The time-line step of `_parse_test_results`: "Thời gian ... <seconds> giây" sets the time in milliseconds. */
  method ScanTime(words: seq<string>, time: int) returns (r: Option<int>)
    ensures r == LineTime(words, time)
  {
    r := Some(time);
    if IsTimeLine(words) {
      var t := ParseLocaleDecimal(words[|words| - 2]);
      if t.None? {
        return None;
      }
      r := Some(Millis(t.value));
    }
  }

  /** The scan `while j < len(logs) and chr(0x2023) not in logs[j]` of `_parse_test_results`. */
  method SkipToSentinel(logs: seq<string>, from: nat) returns (j: nat)
    ensures j == NextSentinel(logs, from)
  {
    j := from;
    while j < |logs| && Sentinel !in logs[j]
      invariant from <= j && NextSentinel(logs, j) == NextSentinel(logs, from)
      decreases |logs| - j
    {
      j := j + 1;
    }
  }

  /** One block of `_parse_test_results`: the points on its sentinel line, then its lines `i .. end - 1`. */
  method ParseBlock(msgs: Messages, markers: seq<string>, logs: seq<string>, i: nat, end: nat, timeLimitMs: int)
    returns (r: Result<Block, ParseError>)
    requires KnowsCodes(msgs, markers)
    requires i < end <= |logs|
    ensures r == BlockAt(msgs, markers, logs, i, end, timeLimitMs)
  {
    var points := ParseLocaleDecimal(LastWord(logs[i]));
    if points.None? {
      return Err(BadNumber);
    }
    var scanned := ScanBlockLines(msgs, markers, logs, i, end);
    if scanned.Err? {
      return Err(scanned.error);
    }
    var executionTime, message, exitCode := scanned.value.time, scanned.value.message, scanned.value.exitCode;
    if message == msgs["TLE"] {
      executionTime := timeLimitMs;
    }
    r := Ok(Block(points.value, executionTime, message, exitCode));
  }

  /** The line loop of `_parse_test_results` over lines `i .. end - 1`, from an AC verdict, time 0 and exit code 0. */
  method ScanBlockLines(msgs: Messages, markers: seq<string>, logs: seq<string>, i: nat, end: nat)
    returns (r: Result<Scan, ParseError>)
    requires KnowsCodes(msgs, markers)
    requires i <= end <= |logs|
    ensures r == ScanLines(msgs, markers, logs, i, end, Scan(msgs["AC"], 0, 0))
  {
    var executionTime := 0;
    var message := msgs["AC"];
    var exitCode := 0;

    for k := i to end
      invariant ScanLines(msgs, markers, logs, i, end, Scan(msgs["AC"], 0, 0))
             == ScanLines(msgs, markers, logs, k, end, Scan(message, executionTime, exitCode))
    {
      var next := ScanBlockLine(msgs, markers, Scan(message, executionTime, exitCode), logs[k]);
      ScanLinesStep(msgs, markers, logs, k, end, Scan(message, executionTime, exitCode));
      if next.Err? {
        return Err(next.error);
      }
      message, executionTime, exitCode := next.value.message, next.value.time, next.value.exitCode;
    }
    r := Ok(Scan(message, executionTime, exitCode));
  }
}
