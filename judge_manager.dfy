/**
 * The judge's main loop: a state machine that walks down the contest sheet,
 * claims unjudged rows, hands Themis problems to the external runner through
 * files, finishes Gemini problems itself, and writes each result back.
 *
 * One call of `Step` is one pass of the endless loop in `run`. The clock is
 * the parameter `now`; the file system is a `Disk` the external runner may
 * change between steps; the Gemini verdict is a parameter (see GeminiJudge).
 */
module JudgeManager {
  import opened Text
  import opened Models
  import opened ThemisJudge
  import opened SheetManager

  /** The statuses this judge writes in column F. */
  const Waiting := "Đang chờ"
  const Judging := "Đang chấm"
  const Judged := "Đã chấm"

  /** Column F holds the status, column G the id of the judge that claimed the row. */
  const StatusCol := 6
  const JudgeCol := 7

  /** The files shared with the external runner, by path. */
  class Disk {
    var files: map<string, string>

    constructor (files: map<string, string>)
      ensures this.files == files
    {
      this.files := files;
    }
  }

  /** Where a Themis submission's source is written, and where the runner leaves its log. */
  function SourcePath(s: Submission): string { "Submissions/" + s.SubmissionName() }
  function LogPath(s: Submission): string { "Submissions/Logs/" + s.SubmissionName() + ".log" }

  /** Two rows never share a source file, so one submission cannot overwrite another's. */
  lemma SourcePathsDiffer(s: Submission, t: Submission)
    requires s.row >= 1 && t.row >= 1 && s.row != t.row
    ensures SourcePath(s) != SourcePath(t) && LogPath(s) != LogPath(t)
  {
    SubmissionNamesDiffer(s, t);
    AffixInjective("Submissions/", "", s.SubmissionName(), t.SubmissionName());
    AffixInjective("Submissions/Logs/", ".log", s.SubmissionName(), t.SubmissionName());
  }

  lemma AffixInjective(p: string, q: string, a: string, b: string)
    ensures p + a + q == p + b + q ==> a == b
    ensures p + a == p + b ==> a == b
  {
    assert (p + a + q)[|p|..|p| + |a|] == a;
    assert (p + b + q)[|p|..|p| + |b|] == b;
    assert (p + a)[|p|..] == a;
    assert (p + b)[|p|..] == b;
  }

  /** The configuration the loop reads. */
  datatype Config = Config(
    judgeId: string,
    resetTime: real,
    problems: Problems,
    extensions: Extensions,
    msgs: Messages,
    fmt: Formatter)
  {
    /** Every problem has a name and every verdict code has a message (a KeyError otherwise). */
    predicate Valid() {
      (forall id | id in problems :: problems[id].name.Some?) && KnowsCodes(msgs, Markers)
    }

    function Problem(id: string): ProblemData
      requires Valid() && id in problems
    {
      FromDict(problems[id]).value
    }
  }

  /** A finished row of the grid `rows`: status "Đã chấm" and the result in columns I to L. */
  predicate ShowsResult(rows: seq<seq<string>>, row: int, fmt: Formatter, result: JudgeResult) {
    CellOf(rows, row, StatusCol) == Judged
    && CellOf(rows, row, 9) == fmt(result.totalPoints)
    && CellOf(rows, row, 10) == IntToString(result.maxExecutionTime)
    && CellOf(rows, row, 11) == result.finalMessage
    && CellOf(rows, row, 12) == ReportHeader(fmt, result) + ReportLines(fmt, result.testsResult, |result.testsResult|)
  }

  /**
   * What handling one row reads and changes: the sheet's cells, the files
   * shared with the runner, and the judge's `judge_done` and
   * `submission_status`.
   */
  datatype State = State(rows: seq<seq<string>>, files: map<string, string>, judgeDone: bool, status: string)

  /** Every cell outside columns `lo` to `hi` of `row` is as it was. */
  ghost predicate OnlyWritesRow(before: State, after: State, row: int, lo: int, hi: int) {
    forall r, c :: (r != row || c < lo || c > hi) ==> CellOf(after.rows, r, c) == CellOf(before.rows, r, c)
  }

  /** `_finalize_judging`'s effect: "Đã chấm" in F, the result in I to L, G and H kept, the row done. */
  ghost predicate Finished(fmt: Formatter, row: int, result: JudgeResult, before: State, after: State) {
    ShowsResult(after.rows, row, fmt, result)
    && OnlyWritesRow(before, after, row, 6, 12)
    && CellOf(after.rows, row, 7) == CellOf(before.rows, row, 7)
    && CellOf(after.rows, row, 8) == CellOf(before.rows, row, 8)
    && after.files == before.files && after.judgeDone && after.status == "Judged"
  }

  /**
   * What `_process_submission` does with submission `s`, from `before` to
   * `after`, by the row's status and judge: an unclaimed row is claimed in F
   * to H and, for Themis, its source handed to the runner; another judge's
   * row is skipped; this judge's waiting Themis row moves to "Đang chấm" once
   * the runner has taken the source, and a waiting Gemini row is finished
   * with the verdict `gemini`; this judge's Themis row being judged is
   * finished once its log exists, or raises `crash` if the log does not
   * parse; anything else is left as it was.
   */
  ghost predicate Processed(config: Config, s: Submission, gemini: JudgeResult, before: State, after: State, crash: Option<ParseError>)
    requires config.Valid() && s.problemId in config.problems
  {
    var problem := config.Problem(s.problemId);
    var themis := problem.judgeType == "Themis";
    if s.status == "" then
      crash.None? && OnlyWritesRow(before, after, s.row, 6, 8)
      && CellOf(after.rows, s.row, StatusCol) == Waiting && CellOf(after.rows, s.row, JudgeCol) == config.judgeId
      && CellOf(after.rows, s.row, 8) == problem.judgeType
      && after.files == (if themis then before.files[SourcePath(s) := s.sourceCode] else before.files)
      && after.judgeDone == before.judgeDone && after.status == "Waiting"
    else if s.judge != config.judgeId then
      crash.None? && after == before.(judgeDone := true, status := "Skipped")
    else if s.status == Waiting && themis then
      crash.None?
      && if SourcePath(s) in before.files then after == before
         else OnlyWritesRow(before, after, s.row, 6, 6) && CellOf(after.rows, s.row, StatusCol) == Judging
              && after.files == before.files && after.judgeDone == before.judgeDone && after.status == "Judging"
    else if s.status == Waiting then
      crash.None? && Finished(config.fmt, s.row, gemini, before, after)
    else if s.status == Judging && themis && LogPath(s) in before.files then
      match LogResult(config.msgs, Markers, before.files[LogPath(s)], problem)
      case Err(e) => crash == Some(e) && after == before
      case Ok(result) => crash.None? && Finished(config.fmt, s.row, result, before, after)
    else
      crash.None? && after == before
  }

  /**
   * A row's status is kept or moves forward: "" to "Đang chờ", "Đang chờ" to
   * "Đang chấm" (Themis) or "Đã chấm" (Gemini), "Đang chấm" to "Đã chấm";
   * and only a row of this judge, or an unclaimed one, changes at all.
   */
  lemma StatusMovesForward(config: Config, s: Submission, gemini: JudgeResult, before: State, after: State, crash: Option<ParseError>)
    requires config.Valid() && s.problemId in config.problems
    requires Processed(config, s, gemini, before, after, crash)
    ensures var st := CellOf(after.rows, s.row, StatusCol);
      st == CellOf(before.rows, s.row, StatusCol)
      || (s.status == "" && st == Waiting)
      || (s.status == Waiting && s.judge == config.judgeId && (st == Judging || st == Judged))
      || (s.status == Judging && s.judge == config.judgeId && st == Judged)
    ensures s.status != "" && s.judge != config.judgeId ==> after.rows == before.rows && after.files == before.files
  {
    if s.status != "" && s.judge == config.judgeId && s.status == Waiting
       && config.Problem(s.problemId).judgeType == "Themis" && SourcePath(s) in before.files {
      assert after == before;
    }
  }

  // ---------------------------------------------------------------------
  // Finding the next row
  // ---------------------------------------------------------------------

  /** One move of `_find_next_submission`: the first missed row if any is left, else the row below. */
  function Advance(missed: seq<int>, row: int): (int, seq<int>) {
    if missed != [] then (missed[0], missed[1..]) else (row + 1, [])
  }

  /** Where `_find_next_submission` stops, and the missed rows left then. */
  function NextRow(sheet: Sheet, missed: seq<int>, row: int): (r: (int, seq<int>))
    reads sheet
    ensures IsCellEmpty(sheet, r.0, JudgeCol)
    decreases |missed|, if row <= |sheet.rows| then |sheet.rows| + 1 - row else 0
  {
    var next := Advance(missed, row);
    if IsCellEmpty(sheet, next.0, JudgeCol) then next else NextRow(sheet, next.1, next.0)
  }

  /** Missed rows come first: the search stops at the first of them whose judge cell is empty. */
  lemma {:induction false} NextRowTakesMissed(sheet: Sheet, missed: seq<int>, row: int, k: nat)
    requires k < |missed| && IsCellEmpty(sheet, missed[k], JudgeCol)
    requires forall j :: 0 <= j < k ==> !IsCellEmpty(sheet, missed[j], JudgeCol)
    ensures NextRow(sheet, missed, row) == (missed[k], missed[k + 1..])
    decreases k
  {
    if k > 0 {
      NextRowTakesMissed(sheet, missed[1..], missed[0], k - 1);
    }
  }

  /** When every missed row has been claimed meanwhile, the search goes on below the last of them. */
  lemma {:induction false} NextRowSkipsMissed(sheet: Sheet, missed: seq<int>, row: int)
    requires missed != []
    requires forall j :: 0 <= j < |missed| ==> !IsCellEmpty(sheet, missed[j], JudgeCol)
    ensures NextRow(sheet, missed, row) == NextRow(sheet, [], missed[|missed| - 1])
    decreases |missed|
  {
    if |missed| > 1 {
      NextRowSkipsMissed(sheet, missed[1..], missed[0]);
    }
  }

  /** Without missed rows, the search goes down row by row to the first empty judge cell. */
  lemma {:induction false} NextRowCountsDown(sheet: Sheet, row: int)
    ensures var r := NextRow(sheet, [], row);
      r.0 > row && r.1 == [] && forall i :: row < i < r.0 ==> !IsCellEmpty(sheet, i, JudgeCol)
    decreases if row <= |sheet.rows| then |sheet.rows| + 1 - row else 0
  {
    if !IsCellEmpty(sheet, row + 1, JudgeCol) {
      NextRowCountsDown(sheet, row + 1);
    }
  }

  /**
   * Where a reset starts and what it keeps for later, for a judge column
   * holding `col`: the first row from 2 on whose judge cell is empty (or the
   * row below the last filled judge cell, when there is none), then every
   * later such row in increasing order, ending with the row below the last
   * filled judge cell.
   */
  predicate ResetPoint(col: seq<string>, first: int, missed: seq<int>) {
    var n := |col|;
    (first == n + 1 || 2 <= first <= n) && EmptyAt(col, first)
    && (forall i :: 2 <= i < first ==> !EmptyAt(col, i))
    && Increasing([first] + missed)
    && (missed == [] <==> first == n + 1)
    && (missed != [] ==> missed[|missed| - 1] == n + 1)
    && (forall k :: 0 <= k < |missed| - 1 ==> missed[k] <= n && EmptyAt(col, missed[k]))
    && (forall i :: first < i <= n && EmptyAt(col, i) ==> i in missed)
  }

  /** What `get_empty_rows` promises is a reset point once split into its head and the rest. */
  lemma ResetPicksFirst(col: seq<string>, rows: seq<int>)
    requires EmptyRows(col, rows)
    ensures ResetPoint(col, rows[0], rows[1..])
  {
    var n := |col|;
    if |rows| > 1 {
      assert rows[0] < rows[|rows| - 1];
    }
    assert [rows[0]] + rows[1..] == rows;
    forall i | 2 <= i < rows[0]
      ensures !EmptyAt(col, i)
    {
      if i <= n {
        assert col[i - 1] == "" ==> i in rows;
      }
    }
    forall i | rows[0] < i <= n && EmptyAt(col, i)
      ensures i in rows[1..]
    {
      assert i in rows;
      var k :| 0 <= k < |rows| && rows[k] == i;
      assert rows[k] == rows[1..][k - 1];
    }
  }

  /** `get_empty_rows`, split into the row a reset starts at and the missed rows it keeps. */
  method SplitEmptyRows(sheet: Sheet) returns (first: int, missed: seq<int>)
    ensures ResetPoint(sheet.ColValues(JudgeCol), first, missed)
  {
    var rows := GetEmptyRows(sheet);
    ResetPicksFirst(sheet.ColValues(JudgeCol), rows);
    // The list always ends with the row below the last filled judge cell, so
    // the branch of the source that falls back to row 2 is never taken.
    first, missed := rows[0], rows[1..];
  }

  // ---------------------------------------------------------------------
  // The manager
  // ---------------------------------------------------------------------

  class Manager {
    const config: Config
    var currentRow: int
    var judgeDone: bool
    var outOfSubmission: bool
    var lastReset: real
    var submissionStatus: string
    var missedRows: seq<int>

    /** A fresh manager is idle, points above the sheet and is due for a reset. */
    constructor (config: Config)
      ensures this.config == config
      ensures currentRow == 0 && judgeDone && !outOfSubmission && lastReset == -config.resetTime
      ensures submissionStatus == "" && missedRows == []
    {
      this.config := config;
      currentRow := 0;
      judgeDone := true;
      outOfSubmission := false;
      lastReset := -config.resetTime;
      submissionStatus := "";
      missedRows := [];
    }

    /** The cells, the shared files and this judge's flags, as one value. */
    function Snapshot(sheet: Sheet, disk: Disk): State
      reads this, sheet, disk
    {
      State(sheet.rows, disk.files, judgeDone, submissionStatus)
    }

    /** `_should_reset`: idle (no submission, or the last one done) and past the reset interval. */
    predicate ShouldReset(now: real)
      reads this
    {
      (outOfSubmission || judgeDone) && now > lastReset + config.resetTime
    }

    /** The first pass of a fresh manager resets it at any positive time. */
    lemma FreshManagerResets(now: real)
      requires judgeDone && lastReset == -config.resetTime && now > 0.0
      ensures ShouldReset(now)
    {
    }

    /**
     * `_reset_judge`: start over at the first row from 2 on whose judge cell
     * is empty, and keep the later such rows, ending with the row below the
     * last filled judge cell, as the missed rows.
     */
    method ResetJudge(sheet: Sheet, now: real)
      modifies this`missedRows, this`currentRow, this`submissionStatus, this`judgeDone, this`lastReset
      ensures var first, missed := currentRow, missedRows; old(ResetPoint(sheet.ColValues(JudgeCol), first, missed))
      ensures submissionStatus == "Queuing" && !judgeDone && lastReset == now
    {
      var first, missed := SplitEmptyRows(sheet);
      currentRow, missedRows := first, missed;
      submissionStatus, judgeDone, lastReset := "Queuing", false, now;
    }

    /** `_find_next_submission`: move to the row `NextRow` names and queue it. */
    method FindNextSubmission(sheet: Sheet)
      modifies this`currentRow, this`missedRows, this`judgeDone, this`submissionStatus
      ensures (currentRow, missedRows) == NextRow(sheet, old(missedRows), old(currentRow))
      ensures !judgeDone && submissionStatus == "Queuing"
    {
      ghost var target := NextRow(sheet, missedRows, currentRow);
      var next := Advance(missedRows, currentRow);
      currentRow, missedRows := next.0, next.1;
      while !IsCellEmpty(sheet, currentRow, JudgeCol)
        invariant target == if IsCellEmpty(sheet, currentRow, JudgeCol) then (currentRow, missedRows)
                            else NextRow(sheet, missedRows, currentRow)
        decreases |missedRows|, if currentRow <= |sheet.rows| then |sheet.rows| + 1 - currentRow else 0
      {
        next := Advance(missedRows, currentRow);
        currentRow, missedRows := next.0, next.1;
      }
      judgeDone := false;
      submissionStatus := "Queuing";
    }

    /** `_initialize_submission`: claim the row, and for Themis write the source for the runner. */
    method InitializeSubmission(sheet: Sheet, disk: Disk, s: Submission)
      requires config.Valid() && s.problemId in config.problems && s.row >= 1
      modifies sheet, disk, this`submissionStatus
      ensures sheet.Cell(s.row, StatusCol) == Waiting && sheet.Cell(s.row, JudgeCol) == config.judgeId
      ensures sheet.Cell(s.row, 8) == config.Problem(s.problemId).judgeType
      ensures forall r, c :: (r != s.row || c < 6 || c > 8) ==> sheet.Cell(r, c) == old(sheet.Cell(r, c))
      ensures disk.files == if config.Problem(s.problemId).judgeType == "Themis"
                            then old(disk.files)[SourcePath(s) := s.sourceCode] else old(disk.files)
      ensures submissionStatus == "Waiting"
    {
      var problem := config.Problem(s.problemId);
      UpdateStatus(sheet, s.row, Waiting, config.judgeId, problem.judgeType);
      if problem.judgeType == "Themis" {
        disk.files := disk.files[SourcePath(s) := s.sourceCode];
      }
      submissionStatus := "Waiting";
    }

    /** `_finalize_judging`: mark the row judged and write the result. */
    method FinalizeJudging(sheet: Sheet, s: Submission, result: JudgeResult)
      requires s.row >= 1
      modifies sheet, this`judgeDone, this`submissionStatus
      ensures ShowsResult(sheet.rows, s.row, config.fmt, result)
      ensures forall r, c :: (r != s.row || (c != 6 && (c < 9 || c > 12))) ==> sheet.Cell(r, c) == old(sheet.Cell(r, c))
      ensures judgeDone && submissionStatus == "Judged"
    {
      UpdateSingleCell(sheet, s.row, StatusCol, Judged);
      UpdateResults(sheet, s.row, config.fmt, result);
      judgeDone := true;
      submissionStatus := "Judged";
    }

    /**
     * `_start_judging`: for Themis, mark the row as being judged once the
     * runner has taken the source file away; otherwise judge with Gemini at
     * once and finish the row with its result.
     */
    method StartJudging(sheet: Sheet, disk: Disk, s: Submission, gemini: JudgeResult)
      requires config.Valid() && s.problemId in config.problems && s.row >= 1
      modifies sheet, this`judgeDone, this`submissionStatus
      ensures judgeDone == (old(judgeDone) || config.Problem(s.problemId).judgeType != "Themis")
      ensures config.Problem(s.problemId).judgeType == "Themis" ==>
        if SourcePath(s) in disk.files then
          sheet.rows == old(sheet.rows) && submissionStatus == old(submissionStatus)
        else
          sheet.Cell(s.row, StatusCol) == Judging && submissionStatus == "Judging"
          && forall r, c :: (r != s.row || c != 6) ==> sheet.Cell(r, c) == old(sheet.Cell(r, c))
      ensures config.Problem(s.problemId).judgeType != "Themis" ==>
        ShowsResult(sheet.rows, s.row, config.fmt, gemini) && submissionStatus == "Judged"
        && forall r, c :: (r != s.row || (c != 6 && (c < 9 || c > 12))) ==> sheet.Cell(r, c) == old(sheet.Cell(r, c))
    {
      var problem := config.Problem(s.problemId);
      if problem.judgeType == "Themis" {
        if SourcePath(s) !in disk.files {
          UpdateSingleCell(sheet, s.row, StatusCol, Judging);
          submissionStatus := "Judging";
        }
      } else {
        UpdateSingleCell(sheet, s.row, StatusCol, Judging);
        FinalizeJudging(sheet, s, gemini);
      }
    }

    /**
     * `_complete_judging`: for Themis, once the runner's log exists, parse it
     * and finish the row; a log that does not parse stops the judge.
     */
    method CompleteJudging(sheet: Sheet, disk: Disk, s: Submission) returns (crash: Option<ParseError>)
      requires config.Valid() && s.problemId in config.problems && s.row >= 1
      modifies sheet, this`judgeDone, this`submissionStatus
      ensures var problem := config.Problem(s.problemId);
        if problem.judgeType == "Themis" && LogPath(s) in disk.files then
          match LogResult(config.msgs, Markers, disk.files[LogPath(s)], problem)
          case Err(e) =>
            crash == Some(e) && sheet.rows == old(sheet.rows)
            && judgeDone == old(judgeDone) && submissionStatus == old(submissionStatus)
          case Ok(result) =>
            crash.None? && ShowsResult(sheet.rows, s.row, config.fmt, result) && judgeDone && submissionStatus == "Judged"
            && forall r, c :: (r != s.row || (c != 6 && (c < 9 || c > 12))) ==> sheet.Cell(r, c) == old(sheet.Cell(r, c))
        else
          crash.None? && sheet.rows == old(sheet.rows)
          && judgeDone == old(judgeDone) && submissionStatus == old(submissionStatus)
    {
      crash := None;
      var problem := config.Problem(s.problemId);
      if problem.judgeType == "Themis" && LogPath(s) in disk.files {
        var result := ParseLog(config.msgs, disk.files[LogPath(s)], problem);
        if result.Err? {
          return Some(result.error);
        }
        FinalizeJudging(sheet, s, result.value);
      }
    }

    /**
     * `_process_submission`: an unclaimed row is claimed; a row this judge
     * claimed moves on from "Đang chờ" or "Đang chấm"; a row another judge
     * claimed is skipped untouched.
     */
    method ProcessSubmission(sheet: Sheet, disk: Disk, s: Submission, gemini: JudgeResult)
      returns (crash: Option<ParseError>)
      requires config.Valid() && s.problemId in config.problems && s.row >= 1
      requires sheet.Cell(s.row, JudgeCol) == s.judge
      modifies sheet, disk, this`judgeDone, this`submissionStatus
      ensures Processed(config, s, gemini, old(Snapshot(sheet, disk)), Snapshot(sheet, disk), crash)
      ensures forall r, c :: (r != s.row || c <= 5) ==> sheet.Cell(r, c) == old(sheet.Cell(r, c))
      ensures crash.Some? ==>
        s.status == Judging && s.judge == config.judgeId && LogPath(s) in disk.files
        && LogResult(config.msgs, Markers, disk.files[LogPath(s)], config.Problem(s.problemId)).Err?
        && sheet.rows == old(sheet.rows) && judgeDone == old(judgeDone)
      ensures judgeDone && !old(judgeDone) ==>
        (s.status != "" && s.judge != config.judgeId && submissionStatus == "Skipped")
        || (sheet.Cell(s.row, JudgeCol) == config.judgeId && sheet.Cell(s.row, StatusCol) == Judged)
    {
      crash := None;
      if s.status == "" {
        InitializeSubmission(sheet, disk, s);
      } else if s.judge == config.judgeId {
        if s.status == Waiting {
          StartJudging(sheet, disk, s, gemini);
        } else if s.status == Judging {
          crash := CompleteJudging(sheet, disk, s);
        }
      } else {
        judgeDone := true;
        submissionStatus := "Skipped";
      }
      // The callees state their frames cell by cell; `Processed` speaks of the grids.
      forall r, c ensures CellOf(sheet.rows, r, c) == sheet.Cell(r, c) && CellOf(old(sheet.rows), r, c) == old(sheet.Cell(r, c)) {
      }
    }

    /** The first half of a pass of `run`: reset when due, then move on if the last row is done. */
    method PickRow(sheet: Sheet, now: real)
      modifies this`missedRows, this`currentRow, this`submissionStatus, this`judgeDone, this`lastReset
      ensures !judgeDone
      ensures old(ShouldReset(now) || judgeDone) ==> submissionStatus == "Queuing"
      ensures lastReset == if old(ShouldReset(now)) then now else old(lastReset)
      ensures var first, missed := currentRow, missedRows;
        old(ShouldReset(now)) ==> old(ResetPoint(sheet.ColValues(JudgeCol), first, missed)) && lastReset == now
      ensures !old(ShouldReset(now)) && old(judgeDone) ==>
        (currentRow, missedRows) == NextRow(sheet, old(missedRows), old(currentRow))
      ensures !old(ShouldReset(now)) && !old(judgeDone) ==>
        currentRow == old(currentRow) && missedRows == old(missedRows) && submissionStatus == old(submissionStatus)
    {
      if ShouldReset(now) {
        ResetJudge(sheet, now);
      }
      if judgeDone {
        FindNextSubmission(sheet);
      }
    }

    /**
     * One pass of `run`: pick the row, read it and act on it. A result is
     * `Some` when parsing a log raised, which ends the source's loop.
     */
    method Step(sheet: Sheet, disk: Disk, now: real, gemini: JudgeResult) returns (crash: Option<ParseError>)
      requires config.Valid()
      modifies this, sheet, disk
      // A reset starts over at the reset point of the sheet as it was.
      ensures var row, missed := currentRow, missedRows;
        old(ShouldReset(now)) ==> old(ResetPoint(sheet.ColValues(JudgeCol), row, missed))
      // Without a reset, a row still being worked on is kept; a finished one is followed by `NextRow`.
      ensures old(!judgeDone && !ShouldReset(now)) ==> currentRow == old(currentRow) && missedRows == old(missedRows)
      // Only a reset moves the time of the last reset.
      ensures lastReset == if old(ShouldReset(now)) then now else old(lastReset)
      ensures var row, missed := currentRow, missedRows;
        old(judgeDone && !ShouldReset(now)) ==> old(NextRow(sheet, missedRows, currentRow)) == (row, missed)
      // Only the row worked on is written, and never its columns A to E.
      ensures forall r, c :: (r != currentRow || c <= 5) ==> sheet.Cell(r, c) == old(sheet.Cell(r, c))
      // A row another judge has claimed is left alone.
      ensures var row := currentRow;
        old(sheet.Cell(row, StatusCol)) != "" && old(sheet.Cell(row, JudgeCol)) != config.judgeId ==>
          sheet.rows == old(sheet.rows) && disk.files == old(disk.files)
      // A row `get_submission` rejects is waited on, and nothing is written; a row
      // it reads is processed from the state the first half of the pass left.
      ensures var row := currentRow;
        var sub := old(GetSubmission(sheet, row, config.problems, config.extensions));
        var before := old(Snapshot(sheet, disk)).(
          judgeDone := false,
          status := if old(ShouldReset(now) || judgeDone) then "Queuing" else old(submissionStatus));
        (outOfSubmission <==> sub.None?)
        && (sub.None? ==> crash.None? && Snapshot(sheet, disk) == before)
        && (sub.Some? ==> Processed(config, sub.value, gemini, before, Snapshot(sheet, disk), crash))
      // The pass ends done only with the row judged by this judge or left to another.
      ensures judgeDone ==>
        (sheet.Cell(currentRow, StatusCol) == Judged && sheet.Cell(currentRow, JudgeCol) == config.judgeId)
        || submissionStatus == "Skipped"
      // The loop stops only on a log of this judge's row that does not parse.
      ensures crash.Some? ==>
        var s := GetSubmission(sheet, currentRow, config.problems, config.extensions);
        s.Some? && s.value.judge == config.judgeId && LogPath(s.value) in disk.files
        && LogResult(config.msgs, Markers, disk.files[LogPath(s.value)], config.Problem(s.value.problemId)).Err?
    {
      ghost var picked := Snapshot(sheet, disk).(
        judgeDone := false,
        status := if ShouldReset(now) || judgeDone then "Queuing" else submissionStatus);
      PickRow(sheet, now);
      assert Snapshot(sheet, disk) == picked;
      assert lastReset == if old(ShouldReset(now)) then now else old(lastReset);
      crash := ServeRow(sheet, disk, gemini);
    }

    /** The second half of a pass of `run`: read the current row and act on it. */
    method ServeRow(sheet: Sheet, disk: Disk, gemini: JudgeResult) returns (crash: Option<ParseError>)
      requires config.Valid() && !judgeDone
      modifies sheet, disk, this`outOfSubmission, this`judgeDone, this`submissionStatus
      ensures forall r, c :: (r != currentRow || c <= 5) ==> sheet.Cell(r, c) == old(sheet.Cell(r, c))
      ensures old(sheet.Cell(currentRow, StatusCol)) != "" && old(sheet.Cell(currentRow, JudgeCol)) != config.judgeId ==>
        sheet.rows == old(sheet.rows) && disk.files == old(disk.files)
      ensures var sub := old(GetSubmission(sheet, currentRow, config.problems, config.extensions));
        (outOfSubmission <==> sub.None?)
        && (sub.None? ==> crash.None? && Snapshot(sheet, disk) == old(Snapshot(sheet, disk)))
        && (sub.Some? ==> Processed(config, sub.value, gemini, old(Snapshot(sheet, disk)), Snapshot(sheet, disk), crash))
      ensures judgeDone ==>
        (sheet.Cell(currentRow, StatusCol) == Judged && sheet.Cell(currentRow, JudgeCol) == config.judgeId)
        || submissionStatus == "Skipped"
      ensures crash.Some? ==>
        var s := GetSubmission(sheet, currentRow, config.problems, config.extensions);
        s.Some? && s.value.judge == config.judgeId && LogPath(s.value) in disk.files
        && LogResult(config.msgs, Markers, disk.files[LogPath(s.value)], config.Problem(s.value.problemId)).Err?
    {
      var submission := GetSubmission(sheet, currentRow, config.problems, config.extensions);
      if submission.None? {
        outOfSubmission := true;
        return None;
      }
      outOfSubmission := false;
      GetSubmissionReadsRow(sheet, currentRow, config.problems, config.extensions);
      crash := ProcessSubmission(sheet, disk, submission.value, gemini);
    }
  }
}
