/**
 * The judge's records: one test's outcome, a whole judgement, a submission
 * row as read from the sheet, and a problem's configuration.
 */
module Models {
  import opened Text

  /** One test: points (exact; see README for rounding), time in ms, verdict text. */
  datatype TestResult = TestResult(points: Decimal, executionTime: int, message: string)

  datatype JudgeResult = JudgeResult(
    totalPoints: Decimal,
    maxExecutionTime: int,
    finalMessage: string,
    testsResult: seq<TestResult>)

  datatype Submission = Submission(
    row: int,
    contestant: string,
    problemId: string,
    problemName: string,
    language: string,
    extension: string,
    sourceCode: string,
    status: string,
    judge: string)
  {
    /** The file name shared with the external runner: padded row, contestant, problem, extension. */
    function SubmissionName(): string {
      RowLabel(row) + "[" + contestant + "][" + problemName + "]." + extension
    }
  }

  /** `str(row - 1).zfill(4)`. */
  function RowLabel(row: int): (r: string)
    ensures |r| >= 4
  {
    ZFill(IntToString(row - 1), 4)
  }

  /** Zeros in front of a digit string do not change its value. */
  lemma {:induction false} LeadingZeros(zeros: string, s: string)
    requires AllDigits(s) && forall k :: 0 <= k < |zeros| ==> zeros[k] == '0'
    ensures AllDigits(zeros + s) && DigitsValue(zeros + s) == DigitsValue(s)
    decreases |s|
  {
    var t := zeros + s;
    if s == [] {
      assert t == zeros;
      ZerosValue(zeros);
    } else {
      assert t[..|t|-1] == zeros + s[..|s|-1];
      LeadingZeros(zeros, s[..|s|-1]);
    }
  }

  lemma {:induction false} ZerosValue(zeros: string)
    requires forall k :: 0 <= k < |zeros| ==> zeros[k] == '0'
    ensures AllDigits(zeros) && DigitsValue(zeros) == 0
    decreases |zeros|
  {
    if zeros != [] {
      ZerosValue(zeros[..|zeros|-1]);
    }
  }

  /** For a data row (row >= 1), the label is at least four digits and still denotes row - 1. */
  lemma RowLabelDenotesRow(row: int)
    requires row >= 1
    ensures var padded := RowLabel(row);
      |padded| >= 4 && |padded| >= |NatToString(row - 1)| && AllDigits(padded) && DigitsValue(padded) == row - 1
      && (|NatToString(row - 1)| >= 4 ==> padded == NatToString(row - 1))
  {
    var s := NatToString(row - 1);
    if |s| < 4 {
      var zeros := seq(4 - |s|, _ => '0');
      assert s[0] != '+' && s[0] != '-';
      assert RowLabel(row) == zeros + s;
      LeadingZeros(zeros, s);
    }
  }

  /** The longest run of digits at the front of a text. */
  function DigitPrefix(s: string): (r: string)
    ensures IsPrefix(r, s) && AllDigits(r)
    ensures |r| < |s| ==> !IsDigit(s[|r|])
    decreases |s|
  {
    if s != [] && IsDigit(s[0]) then
      var rest := DigitPrefix(s[1..]);
      assert s[..1 + |rest|] == [s[0]] + rest;
      [s[0]] + rest
    else []
  }

  lemma {:induction false} DigitPrefixOf(d: string, t: string)
    requires AllDigits(d) && (t == [] || !IsDigit(t[0]))
    ensures DigitPrefix(d + t) == d
    decreases |d|
  {
    if d != [] {
      assert (d + t)[1..] == d[1..] + t;
      DigitPrefixOf(d[1..], t);
    }
  }

  /** The row can be read back from the file name, so two data rows never share a file name. */
  lemma SubmissionNameNamesRow(s: Submission)
    requires s.row >= 1
    ensures DigitsValue(DigitPrefix(s.SubmissionName())) == s.row - 1
  {
    RowLabelDenotesRow(s.row);
    var padded := RowLabel(s.row);
    var rest := "[" + s.contestant + "][" + s.problemName + "]." + s.extension;
    assert s.SubmissionName() == padded + rest;
    DigitPrefixOf(padded, rest);
  }

  lemma SubmissionNamesDiffer(s: Submission, t: Submission)
    requires s.row >= 1 && t.row >= 1 && s.row != t.row
    ensures s.SubmissionName() != t.SubmissionName()
  {
    SubmissionNameNamesRow(s);
    SubmissionNameNamesRow(t);
  }

  /** A problem's configuration. The time limit is in seconds. */
  datatype ProblemData = ProblemData(
    name: string,
    judgeType: string,
    maxScore: Decimal,
    timeLimit: Decimal,
    memoryLimit: int,
    inputFile: string,
    outputFile: string,
    statement: string)
  {
    /** `round(time_limit * 1000)`. */
    function TimeLimitMs(): int { Millis(timeLimit) }
  }

  /** A problem's entry in the configuration file: each key may be absent. */
  datatype ProblemEntry = ProblemEntry(
    name: Option<string>,
    judgeType: Option<string>,
    maxScore: Option<Decimal>,
    timeLimit: Option<Decimal>,
    memoryLimit: Option<int>,
    inputFile: Option<string>,
    outputFile: Option<string>,
    statement: Option<string>)

  function GetOr<T>(o: Option<T>, default: T): T {
    match o
    case Some(v) => v
    case None => default
  }

  const DefaultMaxScore := Decimal(1000, 1)   // 100.0
  const DefaultTimeLimit := Decimal(10, 1)    // 1.0

  /** `ProblemData.from_dict`: every key but "name" falls back to a default; without "name" it fails. */
  function FromDict(e: ProblemEntry): (r: Option<ProblemData>)
    ensures r.None? <==> e.name.None?
    ensures r.Some? ==> r.value.name == e.name.value
  {
    if e.name.None? then None
    else Some(ProblemData(
      e.name.value,
      GetOr(e.judgeType, "Themis"),
      GetOr(e.maxScore, DefaultMaxScore),
      GetOr(e.timeLimit, DefaultTimeLimit),
      GetOr(e.memoryLimit, 256),
      GetOr(e.inputFile, "stdin"),
      GetOr(e.outputFile, "stdout"),
      GetOr(e.statement, "")))
  }

  /** The entry that spells out every field of a problem. */
  function ToEntry(p: ProblemData): ProblemEntry {
    ProblemEntry(Some(p.name), Some(p.judgeType), Some(p.maxScore), Some(p.timeLimit),
      Some(p.memoryLimit), Some(p.inputFile), Some(p.outputFile), Some(p.statement))
  }

  /** An entry giving every key is read back unchanged. */
  lemma FromDictRoundTrip(p: ProblemData)
    ensures FromDict(ToEntry(p)) == Some(p)
  {
  }

  /** An entry giving only the name gets the documented defaults. */
  lemma FromDictDefaults(name: string)
    ensures var e := ProblemEntry(Some(name), None, None, None, None, None, None, None);
      FromDict(e) == Some(ProblemData(name, "Themis", Decimal(1000, 1), Decimal(10, 1), 256, "stdin", "stdout", ""))
      && FromDict(e).value.TimeLimitMs() == 1000
  {
  }
}
