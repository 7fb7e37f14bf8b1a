# TLOJ judge core in Dafny

This project models the core of TLOJ, a judge for programming contests that
uses a shared Google Sheet as its work queue. Each row of the sheet is one
submission. A judge process claims free rows and judges them with one of two
backends:

- the Themis runner, an external program that reads source files from disk
  and writes text logs;
- Gemini, a language model whose free-text reply holds a JSON verdict.

The judge then writes the result back into the row.

The modules follow the program's files:

| module | file | what it holds |
|---|---|---|
| `Text` | — | Python's `str` operations as the core uses them (`split`, `find`, `rfind`, `replace`, `strip`, `zfill`, `int`, `float` of decimal text) |
| `Models` | models.py | the records, `submission_name`, `ProblemData.from_dict` |
| `ThemisJudge` | themis_judge.py | what a runner log means (functions) and the parser's loops (methods proved to compute it) |
| `ThemisLaws` | themis_judge.py | the properties of a log's meaning: header check, compile-error message, blocks, verdict, time, exit code, final message |
| `SheetManager` | sheet_manager.py | the sheet as a class over a grid of cells; row decoding, the empty-row scan, the report and the cell layouts written |
| `JudgeManager` | judge_manager.py | the `JudgeManager` state machine as a class; one pass of `run` is `Manager.Step` |
| `LegacyJudge` | judge.py | the older single-file judge: its log parser, report and module-level loop |
| `GeminiJudge` | gemini_judge.py | reading Gemini's reply into a judgement, and the retry loop |
| `ProblemSummarizer` | problem_summarizer.py | the summary text cleaner |

Code that changes state step by step is modelled as methods with loops. Each
such method is proved equal to a function that states what the result means.
Lemmas then prove the promised properties about those functions. The sheet,
the judge manager, the older loop and the shared files are classes whose
methods state the whole new state.

Outside effects become parameters:

- the clock is a `now: real` argument; one pass reads it once, so `last_reset` after a reset is the same `now` that `_should_reset` compared, where the source reads `time.time()` again after `get_empty_rows` (judge_manager.py:81, judge.py:158);
- the files shared with the runner are a `Disk` whose map the runner may change between passes;
- `json.loads` is a function argument `decode`;
- the API's successive replies are a sequence given in advance;
- the Gemini verdict a pass would obtain is an argument of `Manager.Step`.

Some behaviours of the code are easy to misread, and the model keeps them as written:

- A log with no test block parses as a pass: AC, no tests, time 0. `_parse_test_results` never fails on it, and `final_message` falls back to AC (themis_judge.py:65-121).
- The exit code is taken from the last "exit" "code:" pair in a block, because every later pair overwrites it. Only pairs with at least one more word after the code token count, since the loop runs over `range(len(words) - 3)` (themis_judge.py:95-97).
- The compile-error scan never reaches the last line of the log, since it runs over `range(3, len(logs) - 1)` (themis_judge.py:47).
- `_reset_judge`'s fallback to row 2 can never happen, because `get_empty_rows` always ends with the row below the column's last filled cell. `JudgeManager.SplitEmptyRows` proves this.
- Gemini maps an unknown verdict code to the RE message. A missing "RE" message makes the whole reply fail, because Python evaluates the default `result_messages["RE"]` eagerly.
- The older loop in judge.py differs from `JudgeManager` in several ways:
  - its fourth marker is "NF";
  - it reads status and judge only from rows of at least seven cells;
  - it writes "Đã chấm" before parsing the log;
  - a short row, an unknown problem or an unknown language raises;
  - its first pass raises a NameError when no reset happens first.
  `LegacyJudge` models each of these, and lemmas relate it to the newer code.

## Model

| member | source | states |
|---|---|---|
| Text.Split | themis_judge.py:10 | `str.split` on one character always gives at least one piece |
| Text.SplitJoin | themis_judge.py:10 | joining the pieces with the separator gives back the text, and no piece holds the separator |
| Text.SplitNoSeparator | themis_judge.py:12 | a text without the separator splits into itself alone |
| Text.SplitAppend | themis_judge.py:10 | splitting `a + sep + b` gives the pieces of `a`, then those of `b` |
| Text.Find | gemini_judge.py:97 | `find` returns -1 exactly when the character is absent, and otherwise its first index |
| Text.RFind | gemini_judge.py:98 | `rfind` returns -1 exactly when the character is absent, and otherwise its last index |
| Text.ReplaceAllKeepsOut | problem_summarizer.py:46-49 | `replace` adds no character that is in neither the text nor the replacement |
| Text.ReplaceAllRemovesChar | problem_summarizer.py:47 | `replace(x, "")` leaves no `x` |
| Text.LStripSuffix | problem_summarizer.py:50 | `lstrip` keeps a suffix that does not start with white space |
| Text.RStripPrefix | problem_summarizer.py:50 | `rstrip` keeps a prefix that does not end with white space |
| Text.StripEnds | problem_summarizer.py:50 | `strip` leaves no white space at either end and never lengthens |
| Text.StripKeeps | problem_summarizer.py:50 | `strip` adds no character |
| Text.NatToString | models.py:34 | `str(n)` is a digit string without a leading zero whose value is `n` |
| Text.ZFill | models.py:34 | `zfill(w)` has length `max(len, w)` |
| Models.RowLabel | models.py:34 | `str(row - 1).zfill(4)` is at least four characters |
| Models.LeadingZeros | models.py:34 | zero padding does not change a digit string's value |
| Models.ZerosValue | models.py:34 | a string of zeros has value 0 |
| Models.RowLabelDenotesRow | models.py:34 | for a data row, the label is all digits, at least four long, and denotes `row - 1`; a long number is unpadded |
| Models.DigitPrefix | models.py:34 | the longest run of leading digits of a text |
| Models.DigitPrefixOf | models.py:34 | digits followed by a non-digit give back those digits as the leading run |
| Models.SubmissionNameNamesRow | models.py:32-34 | the row can be read back from `submission_name` |
| Models.SubmissionNamesDiffer | models.py:32-34 | two data rows never share a submission name |
| Models.FromDict | models.py:48-59 | `from_dict` fails exactly when "name" is missing, and otherwise keeps the name |
| Models.FromDictRoundTrip | models.py:48-59 | an entry that gives every key is read back unchanged |
| Models.FromDictDefaults | models.py:52-58 | an entry with only a name gets "Themis", 100.0, 1.0 s (1000 ms), 256, "stdin", "stdout", "" |
| ThemisJudge.NextSentinel | themis_judge.py:66-67 | the first line at or after `i` that holds U+2023, with none before it, or the end of the log |
| ThemisJudge.TestsOf | themis_judge.py:107-114 | one test per block, in order |
| ThemisJudge.TestsOfAppend | themis_judge.py:110-114 | one more block appends one more test |
| ThemisJudge.PrependNothing | themis_judge.py:69-116 | reading no block before the rest leaves the rest unchanged |
| ThemisJudge.BlocksFromFails | themis_judge.py:69-116 | a block that fails to read fails the whole log with the same error |
| ThemisJudge.BlocksFromStep | themis_judge.py:69-116 | the blocks from a sentinel line are its block, then the blocks from the next sentinel line |
| ThemisJudge.ParseLog | themis_judge.py:9-41 | `parse_log` returns exactly the meaning `LogResult` gives the log, errors included |
| ThemisJudge.ParseCompilationError | themis_judge.py:43-58 | the loop builds exactly `CompileErrorMessage` |
| ThemisJudge.RenameCompilerLine | themis_judge.py:51-56 | one line of the compiler output is renamed, dropped or kept as `CompileErrorLine` says |
| ThemisJudge.ParseTestResults | themis_judge.py:60-121 | the block loops return exactly `TestOutcome` of the log |
| ThemisJudge.NextBlock | themis_judge.py:69-116 | one block is read, and the block list from `i` is it followed by the list from where it ends |
| ThemisJudge.RecordBlock | themis_judge.py:99-114 | recording a block extends the tests, the largest time and the first failure by that block |
| ThemisJudge.ScanLinesStep | themis_judge.py:82-97 | scanning lines `k..end` is scanning line `k`, then the rest |
| ThemisJudge.ScanBlockLine | themis_judge.py:83-97 | the body of the line loop computes `ScanLine` |
| ThemisJudge.ScanExitCode | themis_judge.py:95-97 | the exit-code loop computes `ExitFrom` |
| ThemisJudge.ScanMarkers | themis_judge.py:85-90 | the marker loop computes `MarkersFrom` |
| ThemisJudge.ScanTime | themis_judge.py:92-93 | the time-line check computes `LineTime` |
| ThemisJudge.SkipToSentinel | themis_judge.py:65-67 | the skip loop stops at `NextSentinel` |
| ThemisJudge.ParseBlock | themis_judge.py:75-100 | reading one block computes `BlockAt` |
| ThemisJudge.ScanBlockLines | themis_judge.py:82-97 | the line loop of a block computes `ScanLines` from AC, time 0, exit code 0 |
| ThemisLaws.HeaderChecked | themis_judge.py:10-14 | a parsed log's second line splits on '.' into exactly two parts, the first the expected name; a bad header is the parse error |
| ThemisLaws.CompileErrorResult | themis_judge.py:16-24 | a log holding the CE text gives total 0, time 0, final message CE, and one zero test carrying the compiler output |
| ThemisLaws.CompileErrorMessageBounded | themis_judge.py:58 | the message is at most 10003 characters; a long one is its first 10000 plus "...", and it starts with the CE text |
| ThemisLaws.CompileErrorBodySkipsLastLine | themis_judge.py:47 | the last line of the log never reaches the message |
| ThemisLaws.CompileErrorBodyStops | themis_judge.py:47-49 | nothing after a "Dịch lỗi!" line reaches the message |
| ThemisLaws.SplitHeadIsPrefix | themis_judge.py:51-52 | the first '.'-piece of a line is a prefix of it |
| ThemisLaws.CompileErrorLineCases | themis_judge.py:51-54 | a line naming the problem has its first occurrence of the name replaced by "main"; a Pascal "Error:" line is dropped; any other line is kept |
| ThemisLaws.SentinelLines | themis_judge.py:65-73 | the indices of the sentinel lines from `i` on |
| ThemisLaws.SentinelLinesSkip | themis_judge.py:65-67 | lines without the sentinel add no block |
| ThemisLaws.BlockCount | themis_judge.py:65-116 | there is one block per sentinel line |
| ThemisLaws.BlockExtent | themis_judge.py:69-116 | block `k` runs from the `k`-th sentinel line to the line before the next one, or to the end of the log |
| ThemisLaws.BlockExtentFirst | themis_judge.py:69-116 | the first block runs from its sentinel line to the next sentinel line |
| ThemisLaws.BlockExtentNext | themis_judge.py:69-116 | each later block is the matching block of the rest of the log |
| ThemisLaws.BlocksFromCons | themis_judge.py:69-116 | a parse from a sentinel line is its block followed by the blocks from the next sentinel line |
| ThemisLaws.BlockEndFirst | themis_judge.py:70-73 | the first block ends at the next sentinel line |
| ThemisLaws.BlockEndShift | themis_judge.py:70-73 | block ends shift with the list of sentinel lines |
| ThemisLaws.TestCount | themis_judge.py:65-116 | the number of tests is the number of lines from index 1 on that hold U+2023 |
| ThemisLaws.MarkersPriority | themis_judge.py:85-90 | only an AC verdict changes, to the first of WA, RE, TLE, NOF that occurs in the line |
| ThemisLaws.LastTimeLine | themis_judge.py:92-93 | the last line of a block that starts "Thời gian" |
| ThemisLaws.LastExit | themis_judge.py:95-97 | the last "exit" "code:" pair of a line that the loop's range reaches |
| ThemisLaws.ExitCodeIsLast | themis_judge.py:95-97 | within a line, the exit code is `int` of the word after the last reachable pair, or is left as it was |
| ThemisLaws.LastExitLine | themis_judge.py:82-97 | the last line of a block that holds a reachable "exit" "code:" pair |
| ThemisLaws.ScanLineParts | themis_judge.py:83-97 | one line updates verdict, time and exit code independently |
| ThemisLaws.FirstMarkerNotAC | themis_judge.py:85-90 | a found marker's text is not the AC text when the texts are distinct |
| ThemisLaws.ScanVerdict | themis_judge.py:82-90 | the first line of a block holding a marker fixes the verdict; later markers are ignored |
| ThemisLaws.LineTimeStart | themis_judge.py:92-93 | only a time line sets the time, whatever it was before |
| ThemisLaws.ScanTime | themis_judge.py:82-93 | a block's time comes from its last time line, and is unchanged without one |
| ThemisLaws.ScanExit | themis_judge.py:82-97 | a block's exit code comes from its last line with a reachable pair, and is 0 without one |
| ThemisLaws.ScanExitStep | themis_judge.py:95-97 | the exit-code law for lines `k..` follows from the law for `k+1..` |
| ThemisLaws.BlockFacts | themis_judge.py:75-100 | a block's points are its first line's last word with ',' read as '.'; its verdict is the first marker found; a TLE block takes the time limit; time and exit code come from its last time line and last exit pair |
| ThemisLaws.FirstFailureIsFirst | themis_judge.py:104-119 | the final message is the first non-AC verdict, and AC exactly when every block is AC |
| ThemisLaws.MaxTimeIsMax | themis_judge.py:102 | the largest time is at least 0 and every block's time, and is 0 or one of them |
| ThemisLaws.OutcomeFacts | themis_judge.py:60-121 | one test per block with its points and time; only RE tests get " (exit code: N)"; the final message is the first failing verdict without the suffix, or AC; the largest time bounds every test |
| SheetManager.TrimTrailing | sheet_manager.py:26 | `row_values`/`col_values` drop exactly the empty cells at the end |
| SheetManager.Column | sheet_manager.py:77 | a column has one cell per row, empty where the row is too short |
| SheetManager.Sheet.constructor | sheet_manager.py:12 | the worksheet holds the given grid |
| SheetManager.Sheet.RowValues | sheet_manager.py:26 | a row's values are its cells up to the last non-empty one |
| SheetManager.Sheet.ColValues | sheet_manager.py:77 | a column's values are its cells down to the last non-empty one |
| SheetManager.Sheet.Update | sheet_manager.py:52-55 | writing a range in one row sets exactly those cells |
| SheetManager.ProblemIdBeforeDot | sheet_manager.py:31 | with a '.', the problem id is the text before the first one |
| SheetManager.ProblemIdWithoutDot | sheet_manager.py:31 | without a '.', the last character is cut off (`find` returns -1) |
| SheetManager.GetSubmissionReadsRow | sheet_manager.py:23-48 | a submission is read exactly from a row of at least five cells with a known problem; status and judge are empty when the row is shorter; an unknown language gets "txt" |
| SheetManager.EmptyAtCell | sheet_manager.py:88-89 | a cell is empty exactly when the column's values show it empty |
| SheetManager.GetEmptyRows | sheet_manager.py:76-86 | the rows from 2 on whose judge cell is empty, increasing, then the row below the last filled cell |
| SheetManager.EmptyRowsIn | sheet_manager.py:79-86 | the loop over the column's values computes that list |
| SheetManager.UpdateStatus | sheet_manager.py:50-55 | status, judge id and judge type go to F, G, H of the row, and nothing else changes |
| SheetManager.UpdateSingleCell | sheet_manager.py:57-58 | exactly one cell changes |
| SheetManager.FormatLog | sheet_manager.py:91-97 | the report is the header, then one line per test, in order, numbered from 1 |
| SheetManager.IntToStringOneLine | sheet_manager.py:92 | a printed integer holds no newline |
| SheetManager.HeaderOneLine | sheet_manager.py:92 | the header is one line when the printed total and the final message are |
| SheetManager.LineOneLine | sheet_manager.py:95 | a test line is one line when its printed points and message are |
| SheetManager.ReportSplitsIntoLines | sheet_manager.py:91-97 | split on newlines, the report is the header followed by the test lines |
| SheetManager.ReportLineList | sheet_manager.py:94-95 | the test lines as a list, one per test |
| SheetManager.ReportLineListItems | sheet_manager.py:94-95 | entry `k` is the line of test `k + 1` |
| SheetManager.ReportLineListJoined | sheet_manager.py:94-95 | joined by newlines, the list is the report's test part |
| SheetManager.ReportLineListOneLine | sheet_manager.py:95 | no entry holds a newline when no printed points or message does |
| SheetManager.SplitJoined | sheet_manager.py:91-97 | lines without newlines, joined, split back into the same lines |
| SheetManager.UpdateResults | sheet_manager.py:60-74 | printed total, largest time, final message and report go to I to L of the row, and nothing else changes |
| JudgeManager.Disk.constructor | judge_manager.py:128-132 | the shared files as given |
| JudgeManager.SourcePathsDiffer | judge_manager.py:130 | two rows never share a source file or a log file |
| JudgeManager.NextRow | judge_manager.py:87-97 | the row search stops at a row whose judge cell is empty |
| JudgeManager.NextRowTakesMissed | judge_manager.py:91-92 | missed rows come first: the search stops at the first one still empty |
| JudgeManager.NextRowSkipsMissed | judge_manager.py:90-97 | when every missed row is taken, the search goes on below the last one |
| JudgeManager.NextRowCountsDown | judge_manager.py:93-97 | without missed rows, the search stops at the first empty judge cell below the row |
| JudgeManager.ResetPicksFirst | judge_manager.py:74-79 | the head of `get_empty_rows` and the rest form a reset point |
| JudgeManager.SplitEmptyRows | judge_manager.py:74-79 | a reset starts at the first empty judge cell from row 2 (or below the last filled one) and keeps the later ones, in order |
| JudgeManager.Manager.constructor | judge_manager.py:29-34 | a fresh manager: row 0, done, not out of submissions, `last_reset = -reset_time`, no missed rows |
| JudgeManager.Manager.FreshManagerResets | judge_manager.py:32 | the first pass always resets |
| JudgeManager.Manager.ResetJudge | judge_manager.py:71-83 | the row and missed rows form the sheet's reset point; status "Queuing", not done, `last_reset = now` |
| JudgeManager.Manager.FindNextSubmission | judge_manager.py:87-102 | the row and missed rows move to `NextRow`; not done, status "Queuing" |
| JudgeManager.Manager.InitializeSubmission | judge_manager.py:117-135 | one write of ("Đang chờ", judge id, judge type) to F:H; the source file is written only for Themis |
| JudgeManager.Manager.FinalizeJudging | judge_manager.py:181-190 | the row shows "Đã chấm" and the result in I to L; done, "Judged" |
| JudgeManager.Manager.StartJudging | judge_manager.py:137-149 | a Themis row becomes "Đang chấm" only once its source file is gone; a Gemini row is judged and finished at once |
| JudgeManager.Manager.CompleteJudging | judge_manager.py:151-168 | a Themis row is finished once its log exists and parses; a log that does not parse raises with nothing written; a Gemini row is left alone |
| JudgeManager.Manager.ProcessSubmission | judge_manager.py:104-115 | the new state is `Processed` of the old one. An empty status claims the row in F to H and writes the source file for Themis. Another judge's row is skipped with no write. An own "Đang chờ" row is started as `_start_judging` does: Themis waits for the source file to go, Gemini is finished at once. An own "Đang chấm" row is completed as `_complete_judging` does: finished once its log parses, and a log that does not parse raises with nothing written. Any other status is left alone. Columns A to E never change |
| JudgeManager.StatusMovesForward | judge_manager.py:104-115 | after processing, the row's status is kept or moves one way only ("" to "Đang chờ", "Đang chờ" to "Đang chấm" or "Đã chấm", "Đang chấm" to "Đã chấm"); another judge's row and the files stay as they were |
| JudgeManager.Manager.PickRow | judge_manager.py:44-49 | a due reset restarts at the reset point; a finished row is followed by `NextRow`; either sets "Queuing"; a row in progress is kept with its status and missed rows; `lastReset` is `now` after a reset and unchanged otherwise |
| JudgeManager.Manager.Step | judge_manager.py:41-64 | one pass: a due reset restarts at the reset point and sets `lastReset` to `now`, and without one `lastReset` is kept; a finished row is followed by `NextRow`, and a row in progress keeps the current row and the missed rows. Then out-of-submission is set exactly when `get_submission` rejects the new row, and such a row is waited on with nothing written. A readable row is `Processed` from the state after the first half. Only that row's columns F on change, and the pass ends done only with the row judged or skipped |
| JudgeManager.Manager.ServeRow | judge_manager.py:51-64 | out-of-submission is set exactly when `get_submission` rejects the row, and then nothing changes; a readable row is `Processed` |
| LegacyJudge.FirstFailedIndex | judge.py:103-104 | the 1-based number of the first non-AC block, or 0 |
| LegacyJudge.FirstFailedIndexPoints | judge.py:103-105 | that block is the first failure, every block before it passed, and 0 means none failed |
| LegacyJudge.MarkersFromSame | judge.py:87-89 | marker lists that print alike resolve a line alike |
| LegacyJudge.ScanLinesSame | judge.py:84-96 | marker lists that print alike scan a block alike |
| LegacyJudge.BlocksFromSame | judge.py:74-112 | marker lists that print alike read the blocks alike |
| LegacyJudge.BlockAtSame | judge.py:80-99 | marker lists that print alike read one block alike |
| LegacyJudge.TallyIsOutcome | judge.py:74-112 | the block loop of `log_parser` gives the tests, time and final message that `_parse_test_results` gives |
| LegacyJudge.LegacyAgreesWithThemis | judge.py:37-119 | `log_parser` reads a log as `parse_log` does with the codes WA, RE, TLE, NF |
| LegacyJudge.ReadLogsAgree | judge.py:37-119 | around blocks that read alike, both parsers read the log alike |
| LegacyJudge.NotFoundCodesAgree | judge.py:87 | when "NF" and "NOF" print alike, both parsers agree on every log |
| LegacyJudge.OutcomeSameCodes | judge.py:74-112 | code lists that print alike give the same test outcome |
| LegacyJudge.LogResultSameCodes | judge.py:37-119 | code lists that print alike give the same result |
| LegacyJudge.TallyConsistent | judge.py:103-117 | `failed_test` and the final message agree for every tally |
| LegacyJudge.PassedTallyConsistent | judge.py:116-117 | with every block passed, the final message is AC and `failed_test` is the number of tests |
| LegacyJudge.FailedTallyConsistent | judge.py:103-105 | with a failure, `failed_test` is its number and the final message begins that test's message |
| LegacyJudge.PassedMessage | judge.py:107-110 | a passed test keeps the AC message |
| LegacyJudge.FailedTestMeaning | judge.py:48-117 | `failed_test` is 1 on the compile-error path, and otherwise consistent with the tests |
| LegacyJudge.TestPathTally | judge.py:74-119 | off the compile-error path, a parsed log is the tally of its blocks |
| LegacyJudge.LogParser | judge.py:37-119 | `log_parser` returns exactly `LegacyLogResult` |
| LegacyJudge.LegacyTestResults | judge.py:70-112 | the block loop returns exactly `LegacyTestOutcome` |
| LegacyJudge.TallyBlock | judge.py:98-110 | one block extends the tally by that block |
| LegacyJudge.FailureStep | judge.py:103-105 | the first failure is set by the first non-AC block and kept after |
| LegacyJudge.FailedIndexStep | judge.py:103-104 | the failed-test number is set once, by the first non-AC block |
| LegacyJudge.FirstFailureStep | judge.py:103-105 | the first failing verdict is set once, by the first non-AC block |
| LegacyJudge.FormatLegacyLog | judge.py:121-126 | `format_log` is the same report as `_format_log` |
| LegacyJudge.ReadRowVersusGetSubmission | judge.py:189-198 | the older loop reads a row as `get_submission` does, except that it needs a known language and ignores status and judge on a six-cell row |
| LegacyJudge.WriteLegacyResult | judge.py:219-224 | total, time, final message, failed test and report go to H to L, and nothing else changes |
| LegacyJudge.WalkToEmptyRow | judge.py:164-172 | the row search loop stops where `NextRow` does |
| LegacyJudge.LegacyLoop.constructor | judge.py:136-140 | the loop's start: row 0, done, `last_reset = -reset_time`, no `missed_rows` yet |
| LegacyJudge.LegacyLoop.PickRow | judge.py:144-177 | a due reset restarts at the reset point; a finished row is followed by `NextRow`; before any reset this raises; a row in progress is kept with its missed rows; `lastReset` is `now` after a reset and unchanged otherwise |
| LegacyJudge.LegacyLoop.FinishRow | judge.py:218-229 | "Đã chấm" is written first; a log that parses is then written to H to L, one that does not raises |
| LegacyJudge.LegacyLoop.Dispatch | judge.py:202-234 | the new state is `Dispatched` of the old one. An empty status claims the row in F and G and writes the source. An own waiting row moves to "Đang chấm..." once the source is gone. An own judging row gets "Đã chấm" once the log exists, then its result in H to L, or it raises on a bad log. Another judge's row is skipped, and any other row is left alone |
| LegacyJudge.LegacyStatusMovesForward | judge.py:202-234 | in the older loop a row's status is kept or moves one way only ("" to "Đang chờ...", then "Đang chấm...", then "Đã chấm"); another judge's row and the files stay as they were |
| LegacyJudge.LegacyLoop.ServeRow | judge.py:179-234 | out-of-submission is set exactly when the row is empty, and such a row is waited on. A row `ReadRow` rejects raises its error before any write. A readable row is `Dispatched` |
| LegacyJudge.LegacyLoop.Step | judge.py:141-234 | one pass: a due reset starts at the reset point and sets `lastReset` to `now`, and without one `lastReset` is kept; a row in progress keeps the current row and the missed rows; otherwise a finished row is followed by `NextRow`, and before any reset it raises a NameError with nothing changed. Then the row is served as `ServeRow` states, from the state after the first half |
| GeminiJudge.ParseGeminiResponse | gemini_judge.py:94-155 | `_parse_gemini_response` returns exactly `GeminiResult` of the reply |
| GeminiJudge.ReadTestCase | gemini_judge.py:119-140 | the body of the test loop computes `TestOf` |
| GeminiJudge.TestsOfStaysNone | gemini_judge.py:119-140 | once one test fails to read, the whole reply does |
| GeminiJudge.JudgeSubmission | gemini_judge.py:13-33 | the retry loop returns `FirstJudgement` of the replies |
| GeminiJudge.JsonTextBraces | gemini_judge.py:97-103 | there is JSON text exactly when the reply has a '{' and a '}'; it runs from the first '{' to the last '}' |
| GeminiJudge.TestsOfEntries | gemini_judge.py:119-140 | the tests read exactly when every entry reads; one test per entry, in order |
| GeminiJudge.LargestTimeIsMax | gemini_judge.py:142-144 | the largest time bounds every test and is one of them; 0 with no tests |
| GeminiJudge.GeminiResultShape | gemini_judge.py:104-151 | a judgement has a non-empty `test_cases` list, one test per entry in order, the total and final message of the top level, and the largest test time |
| GeminiJudge.NoTestCasesNoResult | gemini_judge.py:113-117 | a missing or empty `test_cases` gives no judgement |
| GeminiJudge.VerdictMessages | gemini_judge.py:107-111 | a known code gets its message, an unknown one the RE message, a missing verdict the RE message |
| GeminiJudge.TleIgnoresEstimate | gemini_judge.py:128-132 | a TLE test takes the time limit whatever its estimate |
| GeminiJudge.OtherTestsUseEstimate | gemini_judge.py:128-132 | any other test takes `int` of its estimate, or 0 without one |
| GeminiJudge.FinalMessageIgnoresTests | gemini_judge.py:107-111 | the final message depends only on the top-level verdict |
| GeminiJudge.FirstSomeIsFirst | gemini_judge.py:16-33 | the first success has only failures before it; there is none only when all fail |
| GeminiJudge.FirstJudgementIsFirst | gemini_judge.py:16-33 | `judge_submission` returns the first reply that is not None and parses; with none, every reply failed |
| ProblemSummarizer.AfterFirstSplits | problem_summarizer.py:40-41 | the marker is found exactly when it occurs; the text after it follows its first occurrence |
| ProblemSummarizer.MarkerChoosesText | problem_summarizer.py:40-41 | with the marker, only the text after its first occurrence is cleaned |
| ProblemSummarizer.NoMarkerKeepsAll | problem_summarizer.py:42-43 | without it, the whole response is cleaned |
| ProblemSummarizer.NoStars | problem_summarizer.py:45-51 | the summary holds no '*' |
| ProblemSummarizer.Trimmed | problem_summarizer.py:50 | the summary has no white space at either end |
| ProblemSummarizer.OnePassHalves | problem_summarizer.py:48-49 | one replace pass halves a run of spaces or newlines (four become two) |

## Left out

- Rounding of points (`round(x, round_digits)`) is not modelled. Points keep the exact decimal value read from the log or the reply. Binary floating point is not modelled either.
- Millisecond times (`round(x * 1000)`) are rounded half to even on the exact decimal value. The binary float may round differently at exact halves.
- Text.ParseInt: `int()` here reads an optional sign and ASCII digits around white space. Python also accepts underscores between digits (`int("1_000")`) and other Unicode decimal digits; the model reads both as malformed. This affects the exit code (themis_judge.py:97, judge.py's copy) and a string estimate in Gemini's reply (gemini_judge.py:132).
- `"%.{d}f" % x` is a function parameter (`Formatter`). `float()` reads an optional sign, digits and an optional fraction. Exponents, "inf", "nan" and underscores are treated as malformed.
- The Google Sheets transport and the `safe_request`/`send_request` retry wrappers are not modelled. Every sheet call returns directly on the `Sheet` grid.
- Sleeping, printing, and the module-level configuration reads and sheet connection in judge.py (lines 6-35) are not modelled.
- Each string in the `Disk` map is a file's text as Python's text-mode `open(..., encoding="utf8")` read returns it (judge_manager.py:165, judge.py:220): "\r\n" and a lone "\r" are already "\n", and a file that is not valid UTF-8, which would raise UnicodeDecodeError, is not modelled.
- File writes and `os.path.exists` act on the `Disk` map. The external runner's changes between passes are not modelled. Races between several judge processes are not modelled either: the model has one worker.
- `json.loads`, the prompt templates, `call_gemini_api` and `summarize_problem` (a model call) are not modelled. Note that `summarize_problem` returns the raw response, not the cleaned summary.
- GeminiJudge.JudgeSubmission: the source retries forever. The model reads a finite sequence of replies and returns None when they run out, so the claim that it "only ever returns a non-None result" holds only if some reply parses.
- JudgeManager.Manager.Step: the Gemini verdict is a parameter, standing for whatever `judge_submission` would return.
- Configuration lookups that would raise a KeyError in the source are preconditions (`Config.Valid`, `KnowsCodes`, `LegacyReady`): a missing verdict message, a problem without a name, a missing time limit.
- ThemisLaws.MarkersPriority and ThemisLaws.ScanVerdict assume the marker texts differ from the AC text, which any sensible configuration satisfies.
- The older parser reuses `i` as the inner loop variable (judge.py:94). This changes nothing, because `i` is reset to `j + 1` after each block, so the model keeps one block index.
