/**
 * The older single-file judge: its own copy of the Themis log parser, which
 * also reports the number of the first failed test, its report formatter,
 * and the module-level loop that claims and judges rows.
 *
 * The parser follows the same rules as ThemisJudge, block by block, with
 * "NF" instead of "NOF" as the fourth verdict code; the lemmas below show
 * that it gives the same result whenever those two codes print alike.
 */
module LegacyJudge {
  import opened Text
  import opened Models
  import opened ThemisJudge
  import opened SheetManager
  import opened JudgeManager

  /** The verdict codes `log_parser` tries, in order of priority. */
  const LegacyMarkers: seq<string> := ["WA", "RE", "TLE", "NF"]

  /** What `log_parser` returns: the judgement and the number of the first failed test. */
  datatype LegacyResult = LegacyResult(
    totalPoints: Decimal,
    maxExecutionTime: int,
    finalMessage: string,
    failedTest: int,
    testsResult: seq<TestResult>)

  // ---------------------------------------------------------------------
  // What a log means
  // ---------------------------------------------------------------------

  /** The number, counted from 1, of the first block whose verdict is not AC, or 0 when there is none. */
  function FirstFailedIndex(msgs: Messages, bs: seq<Block>): (n: nat)
    requires "AC" in msgs
    ensures n <= |bs|
  {
    if bs == [] then 0
    else
      var n := FirstFailedIndex(msgs, bs[..|bs| - 1]);
      if n > 0 then n
      else if bs[|bs| - 1].verdict != msgs["AC"] then |bs|
      else 0
  }

  /** The block the index names is the first failure, and every block before it passed. */
  lemma {:induction false} FirstFailedIndexPoints(msgs: Messages, bs: seq<Block>)
    requires "AC" in msgs
    ensures var n := FirstFailedIndex(msgs, bs);
      (n == 0 <==> FirstFailure(msgs, bs).None?)
      && (n > 0 ==> FirstFailure(msgs, bs) == Some(bs[n - 1].verdict) && bs[n - 1].verdict != msgs["AC"])
      && forall k :: 0 <= k < |bs| && (n == 0 || k < n - 1) ==> bs[k].verdict == msgs["AC"]
  {
    if bs != [] {
      var prefix := bs[..|bs| - 1];
      FirstFailedIndexPoints(msgs, prefix);
      assert forall k :: 0 <= k < |prefix| ==> prefix[k] == bs[k];
    }
  }

  /** The test-block path of `log_parser`: tests, largest time, final message and first failure. */
  datatype LegacyOutcome = LegacyOutcome(tests: seq<TestResult>, maxTime: int, finalMessage: string, failedTest: nat)

  function LegacyTestOutcome(msgs: Messages, markers: seq<string>, logs: seq<string>, timeLimitMs: int)
    : Result<LegacyOutcome, ParseError>
    requires KnowsCodes(msgs, markers)
  {
    match BlocksFrom(msgs, markers, logs, NextSentinel(logs, 1), timeLimitMs)
    case Err(e) => Err(e)
    case Ok(bs) => Ok(Tally(msgs, bs))
  }

  /** What a run of blocks adds up to. */
  function Tally(msgs: Messages, bs: seq<Block>): LegacyOutcome
    requires "AC" in msgs && "RE" in msgs
  {
    LegacyOutcome(TestsOf(msgs, bs), MaxTime(bs), GetOr(FirstFailure(msgs, bs), msgs["AC"]), FirstFailedIndex(msgs, bs))
  }

  /** What `log_parser` makes of a log: the Themis reading with the older codes, plus the first failed test. */
  function LegacyLogResult(msgs: Messages, log: string, problem: ProblemData)
    : Result<LegacyResult, ParseError>
    requires KnowsCodes(msgs, LegacyMarkers)
  {
    LegacyReadLog(msgs, log, problem, LegacyTestOutcome(msgs, LegacyMarkers, Split(log, '\n'), problem.TimeLimitMs()))
  }

  /** `log_parser` around its test blocks, which read as `blocks`; a compile error counts as failing test 1. */
  function LegacyReadLog(msgs: Messages, log: string, problem: ProblemData, blocks: Result<LegacyOutcome, ParseError>)
    : Result<LegacyResult, ParseError>
    requires "CE" in msgs && "AC" in msgs
  {
    var logs := Split(log, '\n');
    match Header(logs, problem.name)
    case Err(e) => Err(e)
    case Ok(language) =>
      if Contains(log, msgs["CE"]) then
        var message := CompileErrorMessage(msgs["CE"], logs, problem.name, language);
        Ok(LegacyResult(Zero, 0, msgs["CE"], 1, [TestResult(Zero, 0, message)]))
      else
        match ParseLocaleDecimal(LastWord(logs[0]))
        case None => Err(BadNumber)
        case Some(total) =>
          match blocks
          case Err(e) => Err(e)
          case Ok(o) =>
            Ok(LegacyResult(total, o.maxTime, o.finalMessage,
              if o.finalMessage == msgs["AC"] then |o.tests| else o.failedTest, o.tests))
  }

  /** The judgement part of a legacy result. */
  function Judgement(r: LegacyResult): JudgeResult {
    JudgeResult(r.totalPoints, r.maxExecutionTime, r.finalMessage, r.testsResult)
  }

  // ---------------------------------------------------------------------
  // The two parsers agree
  // ---------------------------------------------------------------------

  /** Two code lists that print alike, position by position. */
  predicate SameTexts(msgs: Messages, a: seq<string>, b: seq<string>)
    requires KnowsCodes(msgs, a) && KnowsCodes(msgs, b)
  {
    |a| == |b| && forall k :: 0 <= k < |a| ==> msgs[a[k]] == msgs[b[k]]
  }

  lemma {:induction false} MarkersFromSame(msgs: Messages, a: seq<string>, b: seq<string>, c: nat, line: string, message: string)
    requires KnowsCodes(msgs, a) && KnowsCodes(msgs, b) && SameTexts(msgs, a, b)
    ensures MarkersFrom(msgs, a, c, line, message) == MarkersFrom(msgs, b, c, line, message)
    decreases |a| - c
  {
    if c < |a| {
      var next := if Contains(line, msgs[a[c]]) && message == msgs["AC"] then msgs[a[c]] else message;
      MarkersFromSame(msgs, a, b, c + 1, line, next);
    }
  }

  lemma {:induction false} ScanLinesSame(msgs: Messages, a: seq<string>, b: seq<string>, logs: seq<string>, k: nat, end: nat, st: Scan)
    requires KnowsCodes(msgs, a) && KnowsCodes(msgs, b) && SameTexts(msgs, a, b)
    requires k <= end <= |logs|
    ensures ScanLines(msgs, a, logs, k, end, st) == ScanLines(msgs, b, logs, k, end, st)
    decreases end - k
  {
    if k < end {
      MarkersFromSame(msgs, a, b, 0, logs[k], st.message);
      assert ScanLine(msgs, a, st, logs[k]) == ScanLine(msgs, b, st, logs[k]);
      match ScanLine(msgs, a, st, logs[k])
      case Err(_) =>
      case Ok(next) => ScanLinesSame(msgs, a, b, logs, k + 1, end, next);
    }
  }

  lemma {:induction false} BlocksFromSame(msgs: Messages, a: seq<string>, b: seq<string>, logs: seq<string>, i: nat, timeLimitMs: int)
    requires KnowsCodes(msgs, a) && KnowsCodes(msgs, b) && SameTexts(msgs, a, b)
    ensures BlocksFrom(msgs, a, logs, i, timeLimitMs) == BlocksFrom(msgs, b, logs, i, timeLimitMs)
    decreases |logs| - i
  {
    if i < |logs| {
      var end := NextSentinel(logs, i + 1);
      BlockAtSame(msgs, a, b, logs, i, end, timeLimitMs);
      BlocksFromSame(msgs, a, b, logs, end, timeLimitMs);
    }
  }

  lemma BlockAtSame(msgs: Messages, a: seq<string>, b: seq<string>, logs: seq<string>, i: nat, end: nat, timeLimitMs: int)
    requires KnowsCodes(msgs, a) && KnowsCodes(msgs, b) && SameTexts(msgs, a, b)
    requires i < end <= |logs|
    ensures BlockAt(msgs, a, logs, i, end, timeLimitMs) == BlockAt(msgs, b, logs, i, end, timeLimitMs)
  {
    ScanLinesSame(msgs, a, b, logs, i, end, Scan(msgs["AC"], 0, 0));
  }

  /** The block path of both parsers reads the same tests, times and final message. */
  lemma TallyIsOutcome(msgs: Messages, markers: seq<string>, logs: seq<string>, timeLimitMs: int)
    requires KnowsCodes(msgs, markers)
    ensures match LegacyTestOutcome(msgs, markers, logs, timeLimitMs)
      case Err(e) => TestOutcome(msgs, markers, logs, timeLimitMs) == Err(e)
      case Ok(o) => TestOutcome(msgs, markers, logs, timeLimitMs) == Ok(Outcome(o.tests, o.maxTime, o.finalMessage))
  {
  }

  /** `log_parser` reads a log as `parse_log` would with the older codes. */
  lemma LegacyAgreesWithThemis(msgs: Messages, log: string, problem: ProblemData)
    requires KnowsCodes(msgs, LegacyMarkers)
    ensures match LegacyLogResult(msgs, log, problem)
      case Err(e) => LogResult(msgs, LegacyMarkers, log, problem) == Err(e)
      case Ok(r) => LogResult(msgs, LegacyMarkers, log, problem) == Ok(Judgement(r))
  {
    var logs := Split(log, '\n');
    TallyIsOutcome(msgs, LegacyMarkers, logs, problem.TimeLimitMs());
    ReadLogsAgree(msgs, log, problem, LegacyTestOutcome(msgs, LegacyMarkers, logs, problem.TimeLimitMs()),
      TestOutcome(msgs, LegacyMarkers, logs, problem.TimeLimitMs()));
  }

  /** Around blocks that read alike, both parsers read the log alike. */
  lemma ReadLogsAgree(msgs: Messages, log: string, problem: ProblemData,
                      legacy: Result<LegacyOutcome, ParseError>, blocks: Result<Outcome, ParseError>)
    requires "CE" in msgs && "AC" in msgs
    requires match legacy
      case Err(e) => blocks == Err(e)
      case Ok(o) => blocks == Ok(Outcome(o.tests, o.maxTime, o.finalMessage))
    ensures match LegacyReadLog(msgs, log, problem, legacy)
      case Err(e) => ReadLog(msgs, log, problem, blocks) == Err(e)
      case Ok(r) => ReadLog(msgs, log, problem, blocks) == Ok(Judgement(r))
  {
  }

  /** With "NF" and "NOF" printed alike, the older codes read every log as `parse_log` does. */
  lemma NotFoundCodesAgree(msgs: Messages, log: string, problem: ProblemData)
    requires KnowsCodes(msgs, LegacyMarkers) && KnowsCodes(msgs, Markers) && msgs["NF"] == msgs["NOF"]
    ensures LogResult(msgs, LegacyMarkers, log, problem) == LogResult(msgs, Markers, log, problem)
  {
    assert SameTexts(msgs, LegacyMarkers, Markers) by {
      assert LegacyMarkers[3] == "NF" && Markers[3] == "NOF";
      assert forall k :: 0 <= k < 3 ==> LegacyMarkers[k] == Markers[k];
    }
    LogResultSameCodes(msgs, LegacyMarkers, Markers, log, problem);
  }

  lemma OutcomeSameCodes(msgs: Messages, a: seq<string>, b: seq<string>, logs: seq<string>, timeLimitMs: int)
    requires KnowsCodes(msgs, a) && KnowsCodes(msgs, b) && SameTexts(msgs, a, b)
    ensures TestOutcome(msgs, a, logs, timeLimitMs) == TestOutcome(msgs, b, logs, timeLimitMs)
  {
    BlocksFromSame(msgs, a, b, logs, NextSentinel(logs, 1), timeLimitMs);
  }

  /** Two code lists that print alike read every log alike. */
  lemma LogResultSameCodes(msgs: Messages, a: seq<string>, b: seq<string>, log: string, problem: ProblemData)
    requires KnowsCodes(msgs, a) && KnowsCodes(msgs, b) && SameTexts(msgs, a, b)
    ensures LogResult(msgs, a, log, problem) == LogResult(msgs, b, log, problem)
  {
    OutcomeSameCodes(msgs, a, b, Split(log, '\n'), problem.TimeLimitMs());
  }

  /**
   * What `failed_test` means on the test-block path: the number of tests
   * when the final message is AC; otherwise the number of the first test
   * whose message starts with the final message, every earlier test having
   * passed.
   */
  predicate FailedTestConsistent(msgs: Messages, r: LegacyResult)
    requires "AC" in msgs && "RE" in msgs
  {
    var tests := r.testsResult;
    (r.finalMessage == msgs["AC"] ==> r.failedTest == |tests|)
    && (r.finalMessage != msgs["AC"] ==> 1 <= r.failedTest <= |tests| && IsPrefix(r.finalMessage, tests[r.failedTest - 1].message))
    && (msgs["AC"] != msgs["RE"] ==> forall k :: 0 <= k < r.failedTest - 1 ==> tests[k].message == msgs["AC"])
  }

  /** The result `log_parser` builds from a tally of blocks is consistent, whatever the total. */
  lemma TallyConsistent(msgs: Messages, bs: seq<Block>, total: Decimal)
    requires "AC" in msgs && "RE" in msgs
    ensures var t := Tally(msgs, bs);
      FailedTestConsistent(msgs, LegacyResult(total, t.maxTime, t.finalMessage,
        if t.finalMessage == msgs["AC"] then |t.tests| else t.failedTest, t.tests))
  {
    FirstFailedIndexPoints(msgs, bs);
    if FirstFailedIndex(msgs, bs) == 0 {
      PassedTallyConsistent(msgs, bs, total);
    } else {
      FailedTallyConsistent(msgs, bs, total);
    }
  }

  /** With every block passed, the final message is AC and `failed_test` the number of tests. */
  lemma PassedTallyConsistent(msgs: Messages, bs: seq<Block>, total: Decimal)
    requires "AC" in msgs && "RE" in msgs
    requires FirstFailure(msgs, bs).None? && forall k :: 0 <= k < |bs| ==> bs[k].verdict == msgs["AC"]
    ensures var t := Tally(msgs, bs);
      FailedTestConsistent(msgs, LegacyResult(total, t.maxTime, t.finalMessage,
        if t.finalMessage == msgs["AC"] then |t.tests| else t.failedTest, t.tests))
  {
    var tests := TestsOf(msgs, bs);
    forall k | 0 <= k < |bs| && msgs["AC"] != msgs["RE"]
      ensures tests[k].message == msgs["AC"]
    {
      PassedMessage(msgs, bs[k]);
    }
  }

  /** With a failed block, `failed_test` is its number and the final message begins its test's message. */
  lemma FailedTallyConsistent(msgs: Messages, bs: seq<Block>, total: Decimal)
    requires "AC" in msgs && "RE" in msgs
    requires var n := FirstFailedIndex(msgs, bs);
      n > 0 && FirstFailure(msgs, bs) == Some(bs[n - 1].verdict) && bs[n - 1].verdict != msgs["AC"]
      && forall k :: 0 <= k < n - 1 ==> bs[k].verdict == msgs["AC"]
    ensures var t := Tally(msgs, bs);
      FailedTestConsistent(msgs, LegacyResult(total, t.maxTime, t.finalMessage,
        if t.finalMessage == msgs["AC"] then |t.tests| else t.failedTest, t.tests))
  {
    var n := FirstFailedIndex(msgs, bs);
    var tests := TestsOf(msgs, bs);
    assert IsPrefix(bs[n - 1].verdict, tests[n - 1].message);
    forall k | 0 <= k < n - 1 && msgs["AC"] != msgs["RE"]
      ensures tests[k].message == msgs["AC"]
    {
      PassedMessage(msgs, bs[k]);
    }
  }

  /** A passed block's test keeps the AC message (unless AC and RE print alike). */
  lemma PassedMessage(msgs: Messages, b: Block)
    requires "AC" in msgs && "RE" in msgs
    requires b.verdict == msgs["AC"] && msgs["AC"] != msgs["RE"]
    ensures ToTestResult(msgs, b).message == msgs["AC"]
  {
  }

  /**
   * `failed_test`: 1 on a compile error, whose result holds one test;
   * otherwise as `FailedTestConsistent` says.
   */
  lemma FailedTestMeaning(msgs: Messages, log: string, problem: ProblemData)
    requires KnowsCodes(msgs, LegacyMarkers)
    requires LegacyLogResult(msgs, log, problem).Ok?
    ensures var r := LegacyLogResult(msgs, log, problem).value;
      (Contains(log, msgs["CE"]) ==> r.failedTest == 1 && |r.testsResult| == 1)
      && (!Contains(log, msgs["CE"]) ==> FailedTestConsistent(msgs, r))
  {
    if !Contains(log, msgs["CE"]) {
      var r := LegacyLogResult(msgs, log, problem).value;
      var bs := TestPathTally(msgs, log, problem);
      var t := Tally(msgs, bs);
      TallyConsistent(msgs, bs, r.totalPoints);
      assert r == LegacyResult(r.totalPoints, t.maxTime, t.finalMessage,
        if t.finalMessage == msgs["AC"] then |t.tests| else t.failedTest, t.tests);
    }
  }

  /** Off the compile-error path, a parsed log is the tally of its blocks. */
  lemma TestPathTally(msgs: Messages, log: string, problem: ProblemData) returns (bs: seq<Block>)
    requires KnowsCodes(msgs, LegacyMarkers)
    requires LegacyLogResult(msgs, log, problem).Ok? && !Contains(log, msgs["CE"])
    ensures var r, t := LegacyLogResult(msgs, log, problem).value, Tally(msgs, bs);
      r.testsResult == t.tests && r.finalMessage == t.finalMessage && r.maxExecutionTime == t.maxTime
      && r.failedTest == if t.finalMessage == msgs["AC"] then |t.tests| else t.failedTest
  {
    var logs := Split(log, '\n');
    bs := BlocksFrom(msgs, LegacyMarkers, logs, NextSentinel(logs, 1), problem.TimeLimitMs()).value;
  }

  // ---------------------------------------------------------------------
  // The parser's loops
  // ---------------------------------------------------------------------

  /** `log_parser`: the header check, then the compile-error path or the test blocks. */
  method LogParser(msgs: Messages, log: string, problem: ProblemData) returns (r: Result<LegacyResult, ParseError>)
    requires KnowsCodes(msgs, LegacyMarkers)
    ensures r == LegacyLogResult(msgs, log, problem)
  {
    var logs := Split(log, '\n');
    if |logs| < 2 {
      return Err(HeaderMissing);
    }
    var parts := Split(logs[1], '.');
    if |parts| != 2 {
      return Err(HeaderMalformed);
    }
    var problemName, language := parts[0], parts[1];
    if problemName != problem.name {
      return Err(NameMismatch);
    }

    var totalPoints := Zero;
    var maxExecutionTime := 0;
    var finalMessage := msgs["AC"];
    var testsResult: seq<TestResult> := [];
    var failedTest := 0;
    if Contains(log, msgs["CE"]) {
      failedTest := 1;
      finalMessage := msgs["CE"];
      var message := ParseCompilationError(msgs["CE"], logs, problemName, language);
      testsResult := [TestResult(Zero, 0, message)];
    } else {
      var total := ParseLocaleDecimal(LastWord(logs[0]));
      if total.None? {
        return Err(BadNumber);
      }
      totalPoints := total.value;
      var outcome := LegacyTestResults(msgs, LegacyMarkers, logs, problem.TimeLimitMs());
      if outcome.Err? {
        return Err(outcome.error);
      }
      testsResult, maxExecutionTime := outcome.value.tests, outcome.value.maxTime;
      finalMessage, failedTest := outcome.value.finalMessage, outcome.value.failedTest;
    }
    if finalMessage == msgs["AC"] {
      failedTest := |testsResult|;
    }
    r := Ok(LegacyResult(totalPoints, maxExecutionTime, finalMessage, failedTest, testsResult));
  }

  /** The block loop of `log_parser`, which also counts the tests up to the first failure. */
  method LegacyTestResults(msgs: Messages, markers: seq<string>, logs: seq<string>, timeLimitMs: int)
    returns (r: Result<LegacyOutcome, ParseError>)
    requires KnowsCodes(msgs, markers)
    ensures r == LegacyTestOutcome(msgs, markers, logs, timeLimitMs)
  {
    var testsResult: seq<TestResult> := [];
    var maxExecutionTime := 0;
    var finalMessage := msgs["AC"];
    var failedTest: nat := 0;
    ghost var done: seq<Block> := [];

    var i := SkipToSentinel(logs, 1);
    ghost var first := i;
    assert BlocksFrom(msgs, markers, logs, first, timeLimitMs)
        == Prepend(done, BlocksFrom(msgs, markers, logs, i, timeLimitMs)) by {
      PrependNothing(BlocksFrom(msgs, markers, logs, i, timeLimitMs));
    }

    while i < |logs|
      invariant first <= i
      invariant BlocksFrom(msgs, markers, logs, first, timeLimitMs)
             == Prepend(done, BlocksFrom(msgs, markers, logs, i, timeLimitMs))
      invariant LegacyOutcome(testsResult, maxExecutionTime, finalMessage, failedTest) == Tally(msgs, done)
      decreases |logs| - i
    {
      var end, parsed := NextBlock(msgs, markers, logs, i, timeLimitMs, done);
      if parsed.Err? {
        return Err(parsed.error);
      }
      var block := parsed.value;
      testsResult, maxExecutionTime, finalMessage, failedTest :=
        TallyBlock(msgs, done, block, testsResult, maxExecutionTime, finalMessage, failedTest);
      done := done + [block];
      // The source reuses `i` as the index of its exit-code scan; that value
      // is dead here, as `i` moves on to the next block below.
      i := end;
    }

    assert done + [] == done;
    assert BlocksFrom(msgs, markers, logs, first, timeLimitMs) == Ok(done);
    r := Ok(LegacyOutcome(testsResult, maxExecutionTime, finalMessage, failedTest));
  }

  /** The body of the block loop of `log_parser`: record one test and note the first failure. */
  method TallyBlock(msgs: Messages, ghost done: seq<Block>, block: Block,
                    testsResult: seq<TestResult>, maxExecutionTime: int, finalMessage: string, failedTest: nat)
    returns (testsResult': seq<TestResult>, maxExecutionTime': int, finalMessage': string, failedTest': nat)
    requires "AC" in msgs && "RE" in msgs
    requires LegacyOutcome(testsResult, maxExecutionTime, finalMessage, failedTest) == Tally(msgs, done)
    ensures LegacyOutcome(testsResult', maxExecutionTime', finalMessage', failedTest') == Tally(msgs, done + [block])
  {
    var executionTime, message := block.time, block.verdict;
    maxExecutionTime' := Max(maxExecutionTime, executionTime);
    FailureStep(msgs, done, block);
    finalMessage', failedTest' := finalMessage, failedTest;
    if message != msgs["AC"] && failedTest == 0 {
      failedTest' := |testsResult| + 1;
      finalMessage' := message;
    }
    if message == msgs["RE"] {
      message := message + " (exit code: " + IntToString(block.exitCode) + ")";
    }
    testsResult' := testsResult + [TestResult(block.points, executionTime, message)];
    TestsOfAppend(msgs, done, block);
  }

  /** How the first failure moves on when one more block is read. */
  lemma FailureStep(msgs: Messages, done: seq<Block>, b: Block)
    requires "AC" in msgs
    ensures var n := FirstFailedIndex(msgs, done);
      FirstFailedIndex(msgs, done + [b]) == (if n == 0 && b.verdict != msgs["AC"] then |done| + 1 else n)
      && GetOr(FirstFailure(msgs, done + [b]), msgs["AC"])
         == if n == 0 && b.verdict != msgs["AC"] then b.verdict else GetOr(FirstFailure(msgs, done), msgs["AC"])
  {
    FirstFailedIndexPoints(msgs, done);
    FailedIndexStep(msgs, done, b);
    FirstFailureStep(msgs, done, b);
  }

  lemma FailedIndexStep(msgs: Messages, done: seq<Block>, b: Block)
    requires "AC" in msgs
    ensures var n := FirstFailedIndex(msgs, done);
      FirstFailedIndex(msgs, done + [b]) == if n == 0 && b.verdict != msgs["AC"] then |done| + 1 else n
  {
    assert (done + [b])[..|done|] == done;
  }

  lemma FirstFailureStep(msgs: Messages, done: seq<Block>, b: Block)
    requires "AC" in msgs
    ensures FirstFailure(msgs, done + [b]) == if FirstFailure(msgs, done).None? && b.verdict != msgs["AC"] then Some(b.verdict) else FirstFailure(msgs, done)
  {
    assert (done + [b])[..|done|] == done;
  }

  /** `format_log`: the same report as the sheet manager's, for the parser's result. */
  method FormatLegacyLog(fmt: Formatter, r: LegacyResult) returns (log: string)
    ensures log == ReportHeader(fmt, Judgement(r)) + ReportLines(fmt, r.testsResult, |r.testsResult|)
  {
    log := FormatLog(fmt, Judgement(r));
  }

  // ---------------------------------------------------------------------
  // The module-level loop
  // ---------------------------------------------------------------------

  /** The statuses the older judge writes in column F. */
  const LegacyWaiting := "Đang chờ..."
  const LegacyJudging := "Đang chấm..."

  /** Why a pass of the loop raises instead of going on. */
  datatype Crash =
    | MissedRowsUndefined    // NameError: the first pass looks for the next row before any reset
    | ShortRow               // IndexError: a non-empty row with fewer than five cells
    | UnknownProblem         // KeyError: the problem id, or its "name", is not configured
    | UnknownLanguage        // KeyError: the language has no file extension
    | BadLog(error: ParseError)  // `log_parser` raised, after "Đã chấm" was written

  /** What the loop needs from its configuration (a KeyError otherwise). */
  predicate LegacyReady(config: Config) {
    KnowsCodes(config.msgs, LegacyMarkers)
    && forall id | id in config.problems :: config.problems[id].timeLimit.Some?
  }

  /**
   * judge.py lines 189-198: the fields of a non-empty row, read in the source's
   * order so that the first missing cell or key is the one reported; status
   * and judge are read only from a row of at least seven cells.
   */
  function ReadRow(data: seq<string>, row: int, problems: Problems, extensions: Extensions): (r: Result<Submission, Crash>)
    ensures r.Ok? ==> r.value.row == row && r.value.problemId in problems && problems[r.value.problemId].name.Some?
  {
    if |data| < 3 then Err(ShortRow)
    else
      var id := ProblemIdOf(data[2]);
      if id !in problems || problems[id].name.None? then Err(UnknownProblem)
      else if |data| < 4 then Err(ShortRow)
      else if data[3] !in extensions then Err(UnknownLanguage)
      else if |data| < 5 then Err(ShortRow)
      else Ok(Submission(row, data[1], id, problems[id].name.value, data[3], extensions[data[3]], data[4],
        if |data| >= 7 then data[5] else "", if |data| >= 7 then data[6] else ""))
  }

  /**
   * The older loop reads a row as `get_submission` does, except that it
   * fails where `get_submission` returns None, needs a known language, and
   * takes a row of exactly six cells (a status but no judge) as unclaimed.
   */
  lemma ReadRowVersusGetSubmission(sheet: Sheet, row: int, problems: Problems, extensions: Extensions)
    requires forall id | id in problems :: problems[id].name.Some?
    requires sheet.RowValues(row) != []
    ensures var data := sheet.RowValues(row);
      var legacy, current := ReadRow(data, row, problems, extensions), GetSubmission(sheet, row, problems, extensions);
      (legacy.Ok? <==> current.Some? && data[3] in extensions)
      && (legacy.Ok? ==>
            legacy.value.problemId == current.value.problemId && legacy.value.sourceCode == current.value.sourceCode
            && legacy.value.contestant == current.value.contestant && legacy.value.language == current.value.language
            && legacy.value.extension == current.value.extension
            && (|data| == 6 ==> legacy.value.status == "" && current.value.status == data[5] != "")
            && (|data| != 6 ==> legacy.value.status == current.value.status && legacy.value.judge == current.value.judge))
  {
  }

  /** A row the older judge finished: "Đã chấm", then total, largest time, final message, failed test and report in H to L. */
  predicate ShowsLegacyResult(rows: seq<seq<string>>, row: int, fmt: Formatter, r: LegacyResult) {
    CellOf(rows, row, StatusCol) == Judged
    && CellOf(rows, row, 8) == fmt(r.totalPoints)
    && CellOf(rows, row, 9) == IntToString(r.maxExecutionTime)
    && CellOf(rows, row, 10) == r.finalMessage
    && CellOf(rows, row, 11) == IntToString(r.failedTest)
    && CellOf(rows, row, 12) == ReportHeader(fmt, Judgement(r)) + ReportLines(fmt, r.testsResult, |r.testsResult|)
  }

  /**
   * What judge.py lines 202-234 do with submission `s`, from `before` to
   * `after`: an unclaimed row is claimed in F and G and its source handed to
   * the runner; another judge's row is skipped; this judge's waiting row
   * moves to "Đang chấm..." once the runner has taken the source; this
   * judge's row being judged is marked "Đã chấm" once its log exists, and
   * then either gets its result in H to L or raises `crash` if the log does
   * not parse; anything else is left as it was.
   */
  ghost predicate Dispatched(config: Config, s: Submission, before: State, after: State, crash: Option<Crash>)
    requires LegacyReady(config) && s.problemId in config.problems && config.problems[s.problemId].name.Some?
  {
    if s.status == "" then
      crash.None? && OnlyWritesRow(before, after, s.row, 6, 7)
      && CellOf(after.rows, s.row, StatusCol) == LegacyWaiting && CellOf(after.rows, s.row, JudgeCol) == config.judgeId
      && after.files == before.files[SourcePath(s) := s.sourceCode]
      && after.judgeDone == before.judgeDone && after.status == "Waiting..."
    else if s.judge != config.judgeId then
      crash.None? && after == before.(judgeDone := true, status := "Skipped")
    else if s.status == LegacyWaiting then
      crash.None?
      && if SourcePath(s) in before.files then after == before
         else OnlyWritesRow(before, after, s.row, 6, 6) && CellOf(after.rows, s.row, StatusCol) == LegacyJudging
              && after.files == before.files && after.judgeDone == before.judgeDone && after.status == "Judging..."
    else if s.status == LegacyJudging && LogPath(s) in before.files then
      after.files == before.files && CellOf(after.rows, s.row, StatusCol) == Judged
      && match LegacyLogResult(config.msgs, before.files[LogPath(s)], LegacyProblem(config, s.problemId))
         case Err(e) =>
           crash == Some(BadLog(e)) && OnlyWritesRow(before, after, s.row, 6, 6)
           && after.judgeDone == before.judgeDone && after.status == before.status
         case Ok(r) =>
           crash.None? && ShowsLegacyResult(after.rows, s.row, config.fmt, r)
           && OnlyWritesRow(before, after, s.row, 6, 12) && CellOf(after.rows, s.row, 7) == CellOf(before.rows, s.row, 7)
           && after.judgeDone && after.status == "Judged"
    else
      crash.None? && after == before
  }

  /**
   * In the older loop too a row's status is kept or moves forward: "" to
   * "Đang chờ...", "Đang chờ..." to "Đang chấm...", "Đang chấm..." to
   * "Đã chấm"; another judge's row is left alone.
   */
  lemma LegacyStatusMovesForward(config: Config, s: Submission, before: State, after: State, crash: Option<Crash>)
    requires LegacyReady(config) && s.problemId in config.problems && config.problems[s.problemId].name.Some?
    requires Dispatched(config, s, before, after, crash)
    ensures var st := CellOf(after.rows, s.row, StatusCol);
      st == CellOf(before.rows, s.row, StatusCol)
      || (s.status == "" && st == LegacyWaiting)
      || (s.status == LegacyWaiting && s.judge == config.judgeId && st == LegacyJudging)
      || (s.status == LegacyJudging && s.judge == config.judgeId && st == Judged)
    ensures s.status != "" && s.judge != config.judgeId ==> after.rows == before.rows && after.files == before.files
  {
  }

  /** The problem record `log_parser` is given: the configured name and time limit. */
  function LegacyProblem(config: Config, id: string): ProblemData
    requires id in config.problems && config.problems[id].name.Some?
  {
    FromDict(config.problems[id]).value
  }

  /** judge.py line 224: write total, largest time, final message, failed test and report into H to L. */
  method WriteLegacyResult(sheet: Sheet, row: int, fmt: Formatter, r: LegacyResult)
    requires row >= 1
    modifies sheet
    ensures sheet.Cell(row, 8) == fmt(r.totalPoints)
    ensures sheet.Cell(row, 9) == IntToString(r.maxExecutionTime)
    ensures sheet.Cell(row, 10) == r.finalMessage
    ensures sheet.Cell(row, 11) == IntToString(r.failedTest)
    ensures sheet.Cell(row, 12) == ReportHeader(fmt, Judgement(r)) + ReportLines(fmt, r.testsResult, |r.testsResult|)
    ensures forall r', c :: (r' != row || c < 8 || c > 12) ==> sheet.Cell(r', c) == old(sheet.Cell(r', c))
    ensures old(sheet.Cell(row, StatusCol)) == Judged ==> ShowsLegacyResult(sheet.rows, row, fmt, r)
  {
    var report := FormatLegacyLog(fmt, r);
    var cells := [fmt(r.totalPoints), IntToString(r.maxExecutionTime), r.finalMessage, IntToString(r.failedTest), report];
    sheet.Update(row, 8, cells);
    assert sheet.Cell(row, 8) == cells[0];
    assert sheet.Cell(row, 9) == cells[1];
    assert sheet.Cell(row, 10) == cells[2];
    assert sheet.Cell(row, 11) == cells[3];
    assert sheet.Cell(row, 12) == cells[4];
  }

  /** judge.py lines 164-172: the row search of the older loop, on its own variables. */
  method WalkToEmptyRow(sheet: Sheet, missed: seq<int>, row: int) returns (next: int, rest: seq<int>)
    ensures (next, rest) == NextRow(sheet, missed, row)
  {
    ghost var target := NextRow(sheet, missed, row);
    var step := Advance(missed, row);
    next, rest := step.0, step.1;
    while !IsCellEmpty(sheet, next, JudgeCol)
      invariant target == if IsCellEmpty(sheet, next, JudgeCol) then (next, rest) else NextRow(sheet, rest, next)
      decreases |rest|, if next <= |sheet.rows| then |sheet.rows| + 1 - next else 0
    {
      step := Advance(rest, next);
      next, rest := step.0, step.1;
    }
  }

  class LegacyLoop {
    const config: Config
    var currentRow: int
    var judgeDone: bool
    var outOfSubmission: bool
    var lastReset: real
    var submissionStatus: string
    /** `missed_rows` does not exist until the first reset. */
    var missedRows: Option<seq<int>>

    /** judge.py lines 136-140. */
    constructor (config: Config)
      ensures this.config == config
      ensures currentRow == 0 && judgeDone && !outOfSubmission && lastReset == -config.resetTime
      ensures submissionStatus == "" && missedRows.None?
    {
      this.config := config;
      currentRow := 0;
      judgeDone := true;
      outOfSubmission := false;
      lastReset := -config.resetTime;
      submissionStatus := "";
      missedRows := None;
    }

    /** The cells, the shared files and the loop's flags, as one value. */
    function Snapshot(sheet: Sheet, disk: Disk): State
      reads this, sheet, disk
    {
      State(sheet.rows, disk.files, judgeDone, submissionStatus)
    }

    predicate ResetDue(now: real)
      reads this
    {
      (outOfSubmission || judgeDone) && now > lastReset + config.resetTime
    }

    /** judge.py lines 144-177: reset when idle for long enough, then move on if the last row is done. */
    method PickRow(sheet: Sheet, now: real) returns (crash: Option<Crash>)
      modifies this`currentRow, this`missedRows, this`judgeDone, this`lastReset, this`submissionStatus
      ensures crash.Some? <==> !old(ResetDue(now)) && old(judgeDone) && old(missedRows).None?
      ensures crash.Some? ==> crash == Some(MissedRowsUndefined) && judgeDone && submissionStatus == old(submissionStatus)
      ensures crash.None? ==> !judgeDone
      ensures old(ResetDue(now)) ==> submissionStatus == old(submissionStatus)
      ensures lastReset == if old(ResetDue(now)) then now else old(lastReset)
      ensures var first, missed := currentRow, missedRows;
        old(ResetDue(now)) ==> missed.Some? && old(ResetPoint(sheet.ColValues(JudgeCol), first, missed.value)) && lastReset == now
      ensures !old(ResetDue(now)) && old(judgeDone) && old(missedRows).Some? ==>
        missedRows == Some(NextRow(sheet, old(missedRows).value, old(currentRow)).1)
        && currentRow == NextRow(sheet, old(missedRows).value, old(currentRow)).0
        && submissionStatus == "Queuing..."
      ensures !old(ResetDue(now)) && !old(judgeDone) ==>
        currentRow == old(currentRow) && missedRows == old(missedRows) && submissionStatus == old(submissionStatus)
    {
      if ResetDue(now) {
        var first, missed := SplitEmptyRows(sheet);
        currentRow, missedRows := first, Some(missed);
        judgeDone := false;
        lastReset := now;
      }
      if judgeDone {
        if missedRows.None? {
          return Some(MissedRowsUndefined);
        }
        var next, rest := WalkToEmptyRow(sheet, missedRows.value, currentRow);
        currentRow, missedRows := next, Some(rest);
        judgeDone := false;
        submissionStatus := "Queuing...";
      }
      crash := None;
    }

    /**
     * judge.py lines 218-229: mark the row judged, parse the runner's log, and write
     * the result. A log that does not parse raises after the status is
     * written, so the row stays "Đã chấm" with no result.
     */
    method FinishRow(sheet: Sheet, disk: Disk, s: Submission) returns (crash: Option<Crash>)
      requires LegacyReady(config) && s.row >= 1
      requires s.problemId in config.problems && config.problems[s.problemId].name.Some?
      requires LogPath(s) in disk.files
      modifies sheet, this`judgeDone, this`submissionStatus
      ensures sheet.Cell(s.row, StatusCol) == Judged
      ensures var parsed := LegacyLogResult(config.msgs, disk.files[LogPath(s)], LegacyProblem(config, s.problemId));
        parsed.Err? ==>
          crash == Some(BadLog(parsed.error)) && judgeDone == old(judgeDone) && submissionStatus == old(submissionStatus)
          && forall r, c :: (r != s.row || c != 6) ==> sheet.Cell(r, c) == old(sheet.Cell(r, c))
      ensures var parsed := LegacyLogResult(config.msgs, disk.files[LogPath(s)], LegacyProblem(config, s.problemId));
        parsed.Ok? ==>
          crash.None? && ShowsLegacyResult(sheet.rows, s.row, config.fmt, parsed.value) && judgeDone && submissionStatus == "Judged"
          && forall r, c :: (r != s.row || c < 6 || c == 7 || c > 12) ==> sheet.Cell(r, c) == old(sheet.Cell(r, c))
    {
      UpdateSingleCell(sheet, s.row, StatusCol, Judged);
      var parsed := LogParser(config.msgs, disk.files[LogPath(s)], LegacyProblem(config, s.problemId));
      if parsed.Err? {
        return Some(BadLog(parsed.error));
      }
      WriteLegacyResult(sheet, s.row, config.fmt, parsed.value);
      judgeDone := true;
      submissionStatus := "Judged";
      crash := None;
    }

    /** judge.py lines 202-234: claim an unclaimed row, move this judge's row along, skip another judge's row. */
    method Dispatch(sheet: Sheet, disk: Disk, s: Submission) returns (crash: Option<Crash>)
      requires LegacyReady(config) && s.row >= 1
      requires s.problemId in config.problems && config.problems[s.problemId].name.Some?
      modifies sheet, disk, this`judgeDone, this`submissionStatus
      ensures Dispatched(config, s, old(Snapshot(sheet, disk)), Snapshot(sheet, disk), crash)
      ensures forall r, c :: (r != s.row || c <= 5) ==> sheet.Cell(r, c) == old(sheet.Cell(r, c))
      ensures s.status != "" ==> disk.files == old(disk.files) && sheet.Cell(s.row, JudgeCol) == old(sheet.Cell(s.row, JudgeCol))
      ensures judgeDone && !old(judgeDone) ==>
        (sheet.Cell(s.row, StatusCol) == Judged && s.judge == config.judgeId) || submissionStatus == "Skipped"
    {
      crash := None;
      if s.status == "" {
        sheet.Update(s.row, StatusCol, [LegacyWaiting, config.judgeId]);
        disk.files := disk.files[SourcePath(s) := s.sourceCode];
        submissionStatus := "Waiting...";
      } else if s.judge == config.judgeId {
        if s.status == LegacyWaiting {
          if SourcePath(s) !in disk.files {
            UpdateSingleCell(sheet, s.row, StatusCol, LegacyJudging);
            submissionStatus := "Judging...";
          }
        } else if s.status == LegacyJudging {
          if LogPath(s) in disk.files {
            crash := FinishRow(sheet, disk, s);
          }
        }
      } else {
        judgeDone := true;
        submissionStatus := "Skipped";
      }
      // The callees state their frames cell by cell; `Dispatched` speaks of the grids.
      forall r, c ensures CellOf(sheet.rows, r, c) == sheet.Cell(r, c) && CellOf(old(sheet.rows), r, c) == old(sheet.Cell(r, c)) {
      }
    }

    /** judge.py lines 179-234: read the current row and act on it. */
    method ServeRow(sheet: Sheet, disk: Disk) returns (crash: Option<Crash>)
      requires LegacyReady(config)
      modifies sheet, disk, this`outOfSubmission, this`judgeDone, this`submissionStatus
      ensures forall r, c :: (r != currentRow || c <= 5) ==> sheet.Cell(r, c) == old(sheet.Cell(r, c))
      ensures var data := old(sheet.RowValues(currentRow));
        (outOfSubmission <==> data == [])
        && (data == [] ==> crash.None? && Snapshot(sheet, disk) == old(Snapshot(sheet, disk)))
        && (data != [] ==>
              match ReadRow(data, currentRow, config.problems, config.extensions)
              case Err(e) => crash == Some(e) && Snapshot(sheet, disk) == old(Snapshot(sheet, disk))
              case Ok(s) => Dispatched(config, s, old(Snapshot(sheet, disk)), Snapshot(sheet, disk), crash))
      ensures crash.Some? && !crash.value.BadLog? ==> sheet.rows == old(sheet.rows) && disk.files == old(disk.files)
      ensures (old(|sheet.RowValues(currentRow)|) >= 7 && old(sheet.Cell(currentRow, StatusCol)) != ""
               && old(sheet.Cell(currentRow, JudgeCol)) != config.judgeId) ==>
          sheet.rows == old(sheet.rows) && disk.files == old(disk.files)
      ensures judgeDone && !old(judgeDone) ==>
        (sheet.Cell(currentRow, StatusCol) == Judged && sheet.Cell(currentRow, JudgeCol) == config.judgeId)
        || submissionStatus == "Skipped"
    {
      var data := sheet.RowValues(currentRow);
      if data == [] {
        outOfSubmission := true;
        return None;
      }
      outOfSubmission := false;
      var read := ReadRow(data, currentRow, config.problems, config.extensions);
      if read.Err? {
        return Some(read.error);
      }
      var s := read.value;
      assert s.status != "" ==> |data| >= 7 && s.judge == sheet.Cell(currentRow, JudgeCol);
      crash := Dispatch(sheet, disk, s);
    }

    /** One pass of the loop (lines 141-234); `Some` is the error that ends the program. */
    method Step(sheet: Sheet, disk: Disk, now: real) returns (crash: Option<Crash>)
      requires LegacyReady(config)
      modifies this, sheet, disk
      ensures var row, missed := currentRow, missedRows;
        old(ResetDue(now)) ==> missed.Some? && old(ResetPoint(sheet.ColValues(JudgeCol), row, missed.value))
      ensures old(!judgeDone && !ResetDue(now)) ==> currentRow == old(currentRow) && missedRows == old(missedRows)
      // Only a reset moves the time of the last reset.
      ensures lastReset == if old(ResetDue(now)) then now else old(lastReset)
      // Without a reset, a finished row is followed by `NextRow`; before any reset that raises a NameError.
      ensures old(!ResetDue(now) && judgeDone && missedRows.Some?) ==>
        var next := old(NextRow(sheet, missedRows.value, currentRow));
        currentRow == next.0 && missedRows == Some(next.1)
      ensures old(!ResetDue(now) && judgeDone && missedRows.None?) ==>
        crash == Some(MissedRowsUndefined) && Snapshot(sheet, disk) == old(Snapshot(sheet, disk))
      // Otherwise the row is read and acted on from the state the first half of the pass left.
      ensures var row := currentRow;
        var data := old(sheet.RowValues(row));
        var before := old(Snapshot(sheet, disk)).(
          judgeDone := false,
          status := if old(!ResetDue(now) && judgeDone) then "Queuing..." else old(submissionStatus));
        old(ResetDue(now) || !judgeDone || missedRows.Some?) ==>
          (outOfSubmission <==> data == [])
          && (data == [] ==> crash.None? && Snapshot(sheet, disk) == before)
          && (data != [] ==>
                match ReadRow(data, row, config.problems, config.extensions)
                case Err(e) => crash == Some(e) && Snapshot(sheet, disk) == before
                case Ok(s) => Dispatched(config, s, before, Snapshot(sheet, disk), crash))
      // Only the row worked on is written, and never its columns A to E.
      ensures forall r, c :: (r != currentRow || c <= 5) ==> sheet.Cell(r, c) == old(sheet.Cell(r, c))
      // An empty row is waited on.
      ensures crash.None? && outOfSubmission ==>
        sheet.RowValues(currentRow) == [] && sheet.rows == old(sheet.rows) && disk.files == old(disk.files)
      // A row that cannot be read raises before anything is written.
      ensures crash.Some? && !crash.value.BadLog? ==> sheet.rows == old(sheet.rows) && disk.files == old(disk.files)
      // A row another judge has claimed is left alone.
      ensures var row := currentRow;
        old(|sheet.RowValues(row)|) >= 7 && old(sheet.Cell(row, StatusCol)) != ""
        && old(sheet.Cell(row, JudgeCol)) != config.judgeId ==>
          sheet.rows == old(sheet.rows) && disk.files == old(disk.files)
      // The pass ends done only with the row judged or left to another judge.
      ensures judgeDone && crash.None? ==>
        (sheet.Cell(currentRow, StatusCol) == Judged && sheet.Cell(currentRow, JudgeCol) == config.judgeId)
        || submissionStatus == "Skipped"
    {
      ghost var picked := Snapshot(sheet, disk).(
        judgeDone := false,
        status := if !ResetDue(now) && judgeDone then "Queuing..." else submissionStatus);
      crash := PickRow(sheet, now);
      if crash.Some? {
        return;
      }
      assert Snapshot(sheet, disk) == picked;
      assert lastReset == if old(ResetDue(now)) then now else old(lastReset);
      ghost var row := currentRow;
      assert sheet.RowValues(row) == old(sheet.RowValues(row));
      crash := ServeRow(sheet, disk);
    }
  }
}
