/**
 * The contest sheet and the judge's reads and writes on it: decoding a
 * submission row, the scan for rows nobody has claimed, the cell layouts of
 * a status update and of a result, and the text report of a result.
 *
 * The sheet is a grid of cell texts; row and column numbers start at 1, and
 * a cell outside the grid reads as empty, as on the real sheet.
 */
module SheetManager {
  import opened Text
  import opened Models

  /** `row_values` and `col_values` drop the empty cells at the end. */
  function TrimTrailing(s: seq<string>): (r: seq<string>)
    ensures |r| <= |s| && r == s[..|r|]
    ensures r == [] || r[|r| - 1] != ""
    ensures forall k :: |r| <= k < |s| ==> s[k] == ""
    decreases |s|
  {
    if s != [] && s[|s| - 1] == "" then TrimTrailing(s[..|s| - 1]) else s
  }

  /** Column `c` of a grid, one cell per row; a row too short for it reads as empty there. */
  function Column(rows: seq<seq<string>>, c: int): (col: seq<string>)
    ensures |col| == |rows|
    ensures forall i :: 0 <= i < |rows| ==> col[i] == if 1 <= c <= |rows[i]| then rows[i][c - 1] else ""
  {
    seq(|rows|, i requires 0 <= i < |rows| => if 1 <= c <= |rows[i]| then rows[i][c - 1] else "")
  }

  /** The text of cell (r, c) of a grid; a cell outside it is empty. */
  function CellOf(rows: seq<seq<string>>, r: int, c: int): string {
    if 1 <= r <= |rows| && 1 <= c <= |rows[r - 1]| then rows[r - 1][c - 1] else ""
  }

  class Sheet {
    /** `rows[r - 1][c - 1]` is the text of cell (r, c); missing cells are empty. */
    var rows: seq<seq<string>>

    constructor (rows: seq<seq<string>>)
      ensures this.rows == rows
    {
      this.rows := rows;
    }

    function Cell(r: int, c: int): string
      reads this
    {
      CellOf(rows, r, c)
    }

    /** `worksheet.row_values(r)`: the row's cells up to its last non-empty one. */
    function RowValues(r: int): (v: seq<string>)
      reads this
      ensures forall c :: 1 <= c <= |v| ==> v[c - 1] == Cell(r, c)
      ensures forall c :: c > |v| ==> Cell(r, c) == ""
      ensures v == [] || v[|v| - 1] != ""
      ensures v != [] ==> 1 <= r <= |rows|
    {
      if 1 <= r <= |rows| then TrimTrailing(rows[r - 1]) else []
    }

    /** `worksheet.col_values(c)`: the column's cells down to its last non-empty one. */
    function ColValues(c: int): (v: seq<string>)
      reads this
      ensures forall r :: 1 <= r <= |v| ==> v[r - 1] == Cell(r, c)
      ensures forall r :: r > |v| ==> Cell(r, c) == ""
      ensures v == [] || v[|v| - 1] != ""
    {
      var column := Column(rows, c);
      assert forall r :: 1 <= r <= |rows| ==> column[r - 1] == Cell(r, c);
      TrimTrailing(column)
    }

    /** `worksheet.update(values, range)` for a range in one row: cells (r, c) .. (r, c + |values| - 1). */
    method Update(r: int, c: int, values: seq<string>)
      requires r >= 1 && c >= 1
      modifies this
      ensures forall r', c' ::
        Cell(r', c') == if r' == r && c <= c' < c + |values| then values[c' - c] else old(Cell(r', c'))
    {
      var row := if r <= |rows| then rows[r - 1] else [];
      var width := c - 1 + |values|;
      if |row| < width {
        row := row + seq(width - |row|, _ => "");
      }
      var newRow := row[..c - 1] + values + row[width..];
      var grid := rows;
      if |grid| < r {
        grid := grid + seq(r - |grid|, _ => []);
      }
      ghost var before := rows;
      rows := grid[r - 1 := newRow];
      forall r', c' ensures Cell(r', c')
        == if r' == r && c <= c' < c + |values| then values[c' - c] else old(Cell(r', c'))
      {
        if r' == r && 1 <= c' <= |newRow| && !(c <= c' < c + |values|) {
          assert newRow[c' - 1] == row[c' - 1];
        }
      }
    }
  }

  // ---------------------------------------------------------------------
  // Reading a submission
  // ---------------------------------------------------------------------

  /** `cell[:cell.find(".")]`: the text before the first '.', or, without one, all but the last character. */
  function ProblemIdOf(cell: string): string {
    var dot := Find(cell, '.');
    if dot >= 0 then cell[..dot] else if cell == [] then [] else cell[..|cell| - 1]
  }

  /** With a '.', the problem id is exactly the text before the first one. */
  lemma ProblemIdBeforeDot(cell: string)
    requires '.' in cell
    ensures '.' !in ProblemIdOf(cell) && IsPrefix(ProblemIdOf(cell) + ".", cell)
  {
    var dot := Find(cell, '.');
    assert cell[..dot + 1] == cell[..dot] + ".";
  }

  /** Without a '.', the last character is cut off: "A" names problem "", "ABC" problem "AB". */
  lemma ProblemIdWithoutDot(cell: string)
    requires '.' !in cell && cell != []
    ensures ProblemIdOf(cell) == cell[..|cell| - 1]
  {
  }

  /** The configured problems by id, and the file extension of each language. */
  type Problems = map<string, ProblemEntry>
  type Extensions = map<string, string>

  /** `get_submission`: the row's submission, or None for a short row or an unknown problem. */
  function GetSubmission(sheet: Sheet, row: int, problems: Problems, extensions: Extensions): (r: Option<Submission>)
    reads sheet
    requires forall id | id in problems :: problems[id].name.Some?
    ensures r.Some? ==> r.value.row == row >= 1 && r.value.problemId in problems
  {
    var data := sheet.RowValues(row);
    if |data| < 5 then None
    else
      var id := ProblemIdOf(data[2]);
      if id !in problems then None
      else Some(Submission(
        row, data[1], id, problems[id].name.value, data[3],
        if data[3] in extensions then extensions[data[3]] else "txt",
        data[4],
        if |data| >= 6 then data[5] else "",
        if |data| >= 7 then data[6] else ""))
  }

  /**
   * A submission is read exactly from a row whose fifth cell is filled and
   * whose problem is known; its fields are the row's cells, its status and
   * judge are the cells of columns 6 and 7 (empty if the row is shorter),
   * and an unknown language gets the extension "txt".
   */
  lemma GetSubmissionReadsRow(sheet: Sheet, row: int, problems: Problems, extensions: Extensions)
    requires forall id | id in problems :: problems[id].name.Some?
    ensures var r := GetSubmission(sheet, row, problems, extensions);
      (r.Some? <==> |sheet.RowValues(row)| >= 5 && ProblemIdOf(sheet.Cell(row, 3)) in problems)
      && (r.Some? ==>
            var s := r.value;
            s.row == row && s.contestant == sheet.Cell(row, 2) && s.problemId == ProblemIdOf(sheet.Cell(row, 3))
            && s.problemName == problems[s.problemId].name.value
            && s.language == sheet.Cell(row, 4) && s.sourceCode == sheet.Cell(row, 5)
            && s.status == sheet.Cell(row, 6) && s.judge == sheet.Cell(row, 7)
            && s.extension == (if s.language in extensions then extensions[s.language] else "txt"))
  {
  }

  /** `is_cell_empty`: an empty cell has no value. */
  function IsCellEmpty(sheet: Sheet, row: int, col: int): bool
    reads sheet
  {
    sheet.Cell(row, col) == ""
  }

  // ---------------------------------------------------------------------
  // Rows nobody has claimed
  // ---------------------------------------------------------------------

  predicate Increasing(s: seq<int>) {
    forall a, b :: 0 <= a < b < |s| ==> s[a] < s[b]
  }

  /** Row `i` is empty in a column whose values (as `ColValues` gives them) are `col`. */
  predicate EmptyAt(col: seq<string>, i: int) {
    !(1 <= i <= |col|) || col[i - 1] == ""
  }

  /** A column's values say which of its cells are empty. */
  lemma EmptyAtCell(sheet: Sheet, c: int, i: int)
    requires i >= 1
    ensures EmptyAt(sheet.ColValues(c), i) == IsCellEmpty(sheet, i, c)
  {
  }

  /**
   * What `get_empty_rows` returns for a judge column holding `col`: in
   * increasing order, the rows from 2 on, up to the last filled cell, whose
   * cell is empty, then the row after that last filled cell.
   */
  predicate EmptyRows(col: seq<string>, rows: seq<int>) {
    |rows| >= 1 && rows[|rows| - 1] == |col| + 1 && Increasing(rows)
    && (forall k :: 0 <= k < |rows| - 1 ==> 2 <= rows[k] <= |col| && col[rows[k] - 1] == "")
    && (forall i :: 2 <= i <= |col| && col[i - 1] == "" ==> i in rows)
  }

  /** `get_empty_rows`, on column 7. */
  method GetEmptyRows(sheet: Sheet) returns (rows: seq<int>)
    ensures EmptyRows(sheet.ColValues(7), rows)
  {
    var status := sheet.ColValues(7);
    rows := EmptyRowsIn(status);
  }

  /** The loop of `get_empty_rows` over the values of the judge column. */
  method EmptyRowsIn(status: seq<string>) returns (rows: seq<int>)
    ensures EmptyRows(status, rows)
  {
    rows := [];
    var i := 2;
    while i <= |status|
      invariant 2 <= i <= |status| + 2
      invariant Increasing(rows)
      invariant forall k :: 0 <= k < |rows| ==> 2 <= rows[k] < i && rows[k] <= |status| && status[rows[k] - 1] == ""
      invariant forall j :: 2 <= j < i && j <= |status| && status[j - 1] == "" ==> j in rows
    {
      if status[i - 1] == "" {
        rows := rows + [i];
      }
      i := i + 1;
    }
    rows := rows + [|status| + 1];
  }

  // ---------------------------------------------------------------------
  // The cells written
  // ---------------------------------------------------------------------

  /** `update_status`: status, judge id and judge type, in columns F to H of the row. */
  method UpdateStatus(sheet: Sheet, row: int, status: string, judgeId: string, judgeType: string)
    requires row >= 1
    modifies sheet
    ensures sheet.Cell(row, 6) == status && sheet.Cell(row, 7) == judgeId && sheet.Cell(row, 8) == judgeType
    ensures forall r, c :: (r != row || c < 6 || c > 8) ==> sheet.Cell(r, c) == old(sheet.Cell(r, c))
  {
    sheet.Update(row, 6, [status, judgeId, judgeType]);
  }

  /** `update_single_cell`. */
  method UpdateSingleCell(sheet: Sheet, row: int, col: int, value: string)
    requires row >= 1 && col >= 1
    modifies sheet
    ensures sheet.Cell(row, col) == value
    ensures forall r, c :: (r != row || c != col) ==> sheet.Cell(r, c) == old(sheet.Cell(r, c))
  {
    sheet.Update(row, col, [value]);
  }

  /** `"%.{round_digits}f" % x`: how points are printed, given by the configuration. */
  type Formatter = Decimal -> string

  /** The first line of a report: total points, largest time and final message. */
  function ReportHeader(fmt: Formatter, result: JudgeResult): string {
    "Tổng: [" + fmt(result.totalPoints) + " điểm, " + IntToString(result.maxExecutionTime) + " ms] "
    + result.finalMessage
  }

  /** The report line of test number `n` (counted from 1), without its leading newline. */
  function ReportLine(fmt: Formatter, n: int, test: TestResult): string {
    "#" + IntToString(n) + ": [" + fmt(test.points) + " điểm, " + IntToString(test.executionTime) + " ms] "
    + test.message
  }

  /** The report lines of the first `n` tests, each after a newline. */
  function ReportLines(fmt: Formatter, tests: seq<TestResult>, n: nat): string
    requires n <= |tests|
  {
    if n == 0 then "" else ReportLines(fmt, tests, n - 1) + "\n" + ReportLine(fmt, n, tests[n - 1])
  }

  /** `_format_log`: the header, then one line per test. */
  method FormatLog(fmt: Formatter, result: JudgeResult) returns (log: string)
    ensures log == ReportHeader(fmt, result) + ReportLines(fmt, result.testsResult, |result.testsResult|)
  {
    log := ReportHeader(fmt, result);
    for i := 0 to |result.testsResult|
      invariant log == ReportHeader(fmt, result) + ReportLines(fmt, result.testsResult, i)
    {
      var line := ReportLine(fmt, i + 1, result.testsResult[i]);
      NewlineAssoc(ReportHeader(fmt, result), ReportLines(fmt, result.testsResult, i), line);
      log := log + ['\n'] + line;
    }
  }

  /** Printed integers never hold a newline. */
  lemma IntToStringOneLine(n: int)
    ensures '\n' !in IntToString(n)
  {
    var s := if n < 0 then NatToString(-n) else NatToString(n);
    assert forall k :: 0 <= k < |s| ==> IsDigit(s[k]);
  }

  lemma HeaderOneLine(fmt: Formatter, result: JudgeResult)
    requires '\n' !in fmt(result.totalPoints) && '\n' !in result.finalMessage
    ensures '\n' !in ReportHeader(fmt, result)
  {
    IntToStringOneLine(result.maxExecutionTime);
  }

  lemma LineOneLine(fmt: Formatter, n: int, test: TestResult)
    requires '\n' !in fmt(test.points) && '\n' !in test.message
    ensures '\n' !in ReportLine(fmt, n, test)
  {
    IntToStringOneLine(n);
    IntToStringOneLine(test.executionTime);
  }

  lemma NewlineAssoc(a: string, b: string, c: string)
    ensures a + (b + "\n" + c) == (a + b) + ['\n'] + c
  {
  }

  /**
   * When no message and no printed number holds a newline, the report reads
   * back as the header and then the report line of each test, in order.
   */
  lemma ReportSplitsIntoLines(fmt: Formatter, result: JudgeResult, n: nat)
    requires n <= |result.testsResult|
    requires '\n' !in fmt(result.totalPoints) && '\n' !in result.finalMessage
    requires forall k :: 0 <= k < n ==>
      '\n' !in fmt(result.testsResult[k].points) && '\n' !in result.testsResult[k].message
    ensures Split(ReportHeader(fmt, result) + ReportLines(fmt, result.testsResult, n), '\n')
         == [ReportHeader(fmt, result)] + ReportLineList(fmt, result.testsResult, n)
  {
    HeaderOneLine(fmt, result);
    ReportLineListOneLine(fmt, result.testsResult, n);
    ReportLineListJoined(fmt, result.testsResult, n);
    SplitJoined(ReportHeader(fmt, result), ReportLineList(fmt, result.testsResult, n));
  }

  /** The lines `ls`, each after a newline. */
  function Joined(ls: seq<string>): string {
    if ls == [] then "" else Joined(ls[..|ls| - 1]) + "\n" + ls[|ls| - 1]
  }

  /** The report lines of the first `n` tests as a list. */
  function ReportLineList(fmt: Formatter, tests: seq<TestResult>, n: nat): (ls: seq<string>)
    requires n <= |tests|
    ensures |ls| == n
  {
    if n == 0 then [] else ReportLineList(fmt, tests, n - 1) + [ReportLine(fmt, n, tests[n - 1])]
  }

  /** Entry `k` of the list is the line of test `k + 1`. */
  lemma {:induction false} ReportLineListItems(fmt: Formatter, tests: seq<TestResult>, n: nat)
    requires n <= |tests|
    ensures forall k :: 0 <= k < n ==> ReportLineList(fmt, tests, n)[k] == ReportLine(fmt, k + 1, tests[k])
  {
    if n > 0 {
      ReportLineListItems(fmt, tests, n - 1);
      var prev := ReportLineList(fmt, tests, n - 1);
      var line := ReportLine(fmt, n, tests[n - 1]);
      assert ReportLineList(fmt, tests, n) == prev + [line];
      forall k | 0 <= k < n
        ensures ReportLineList(fmt, tests, n)[k] == ReportLine(fmt, k + 1, tests[k])
      {
        if k < n - 1 {
          assert (prev + [line])[k] == prev[k];
        }
      }
    }
  }

  /** Joined, the list is the report's lines. */
  lemma {:induction false} ReportLineListJoined(fmt: Formatter, tests: seq<TestResult>, n: nat)
    requires n <= |tests|
    ensures Joined(ReportLineList(fmt, tests, n)) == ReportLines(fmt, tests, n)
  {
    if n > 0 {
      ReportLineListJoined(fmt, tests, n - 1);
      var prev := ReportLineList(fmt, tests, n - 1);
      var line := ReportLine(fmt, n, tests[n - 1]);
      var ls := prev + [line];
      assert ls[..n - 1] == prev && ls[n - 1] == line;
    }
  }

  /** No line of the list holds a newline when no printed points or message does. */
  lemma {:induction false} ReportLineListOneLine(fmt: Formatter, tests: seq<TestResult>, n: nat)
    requires n <= |tests|
    requires forall k :: 0 <= k < n ==> '\n' !in fmt(tests[k].points) && '\n' !in tests[k].message
    ensures forall k :: 0 <= k < n ==> '\n' !in ReportLineList(fmt, tests, n)[k]
  {
    if n > 0 {
      ReportLineListOneLine(fmt, tests, n - 1);
      LineOneLine(fmt, n, tests[n - 1]);
      var prev := ReportLineList(fmt, tests, n - 1);
      var line := ReportLine(fmt, n, tests[n - 1]);
      assert ReportLineList(fmt, tests, n) == prev + [line];
    }
  }

  /** A header and lines without newlines, joined by newlines, split back into the header and the lines. */
  lemma {:induction false} SplitJoined(head: string, ls: seq<string>)
    requires '\n' !in head && forall k :: 0 <= k < |ls| ==> '\n' !in ls[k]
    ensures Split(head + Joined(ls), '\n') == [head] + ls
  {
    if ls == [] {
      assert head + "" == head;
      SplitNoSeparator(head, '\n');
    } else {
      var prev := ls[..|ls| - 1];
      SplitJoined(head, prev);
      SplitOneMoreLine(head, Joined(prev), ls[|ls| - 1]);
      assert [head] + ls == [head] + prev + [ls[|ls| - 1]];
    }
  }

  /** One more line after a newline adds one more piece to the split. */
  lemma SplitOneMoreLine(head: string, body: string, line: string)
    requires '\n' !in line
    ensures Split(head + (body + "\n" + line), '\n') == Split(head + body, '\n') + [line]
  {
    SplitNoSeparator(line, '\n');
    NewlineAssoc(head, body, line);
    SplitAppend(head + body, '\n', line);
  }

  /** `update_results`: printed total, largest time, final message and report, in columns I to L. */
  method UpdateResults(sheet: Sheet, row: int, fmt: Formatter, result: JudgeResult)
    requires row >= 1
    modifies sheet
    ensures sheet.Cell(row, 9) == fmt(result.totalPoints)
    ensures sheet.Cell(row, 10) == IntToString(result.maxExecutionTime)
    ensures sheet.Cell(row, 11) == result.finalMessage
    ensures sheet.Cell(row, 12) == ReportHeader(fmt, result) + ReportLines(fmt, result.testsResult, |result.testsResult|)
    ensures forall r, c :: (r != row || c < 9 || c > 12) ==> sheet.Cell(r, c) == old(sheet.Cell(r, c))
  {
    var report := FormatLog(fmt, result);
    var cells := [fmt(result.totalPoints), IntToString(result.maxExecutionTime), result.finalMessage, report];
    sheet.Update(row, 9, cells);
    assert sheet.Cell(row, 9) == cells[0] && sheet.Cell(row, 10) == cells[1];
    assert sheet.Cell(row, 11) == cells[2] && sheet.Cell(row, 12) == cells[3];
  }
}
