/**
 * What the Themis log parser promises, stated over the functions of
 * ThemisJudge: the header check, the compile-error message, how the log is
 * cut into test blocks, and how each block's verdict, time and exit code
 * and the whole log's final message and maximum time are chosen.
 */
module ThemisLaws {
  import opened Text
  import opened Models
  import opened ThemisJudge

  // ---------------------------------------------------------------------
  // The header
  // ---------------------------------------------------------------------

  /** A parsed log names the expected problem on its second line, and that line has exactly one '.'. */
  lemma HeaderChecked(msgs: Messages, markers: seq<string>, log: string, problem: ProblemData)
    requires KnowsCodes(msgs, markers)
    ensures var logs := Split(log, '\n');
      LogResult(msgs, markers, log, problem).Ok? ==>
        |logs| >= 2 && |Split(logs[1], '.')| == 2 && Split(logs[1], '.')[0] == problem.name
    ensures Header(Split(log, '\n'), problem.name).Err? ==>
      LogResult(msgs, markers, log, problem) == Err(Header(Split(log, '\n'), problem.name).error)
  {
  }

  // ---------------------------------------------------------------------
  // The compile-error path
  // ---------------------------------------------------------------------

  /** A log mentioning the CE text is one zero-point, zero-time test whose message is the compiler output. */
  lemma CompileErrorResult(msgs: Messages, markers: seq<string>, log: string, problem: ProblemData)
    requires KnowsCodes(msgs, markers)
    requires Header(Split(log, '\n'), problem.name).Ok?
    requires Contains(log, msgs["CE"])
    ensures var r := LogResult(msgs, markers, log, problem);
      r.Ok? && r.value.totalPoints == Zero && r.value.maxExecutionTime == 0 && r.value.finalMessage == msgs["CE"]
      && |r.value.testsResult| == 1
      && r.value.testsResult[0].points == Zero && r.value.testsResult[0].executionTime == 0
      && r.value.testsResult[0].message == CompileErrorMessage(msgs["CE"], Split(log, '\n'), problem.name,
           Header(Split(log, '\n'), problem.name).value)
  {
  }

  /** The message is at most 10003 characters; a long one is its first 10000 followed by "...". */
  lemma CompileErrorMessageBounded(ce: string, logs: seq<string>, name: string, language: string)
    ensures var m := CompileErrorMessage(ce, logs, name, language);
      var full := ce + CompileErrorBody(logs, 3, name, language);
      |m| <= MaxMessage + 3
      && (|full| <= MaxMessage ==> m == full)
      && (|full| > MaxMessage ==> m == full[..MaxMessage] + "...")
      && (|ce| <= MaxMessage ==> IsPrefix(ce, m))
  {
    var full := ce + CompileErrorBody(logs, 3, name, language);
    if |full| > MaxMessage && |ce| <= MaxMessage {
      assert full[..MaxMessage][..|ce|] == ce;
    }
  }

  /** The last line of the log never reaches the message, whatever it says. */
  lemma {:induction false} CompileErrorBodySkipsLastLine(logs: seq<string>, x: string, i: nat, name: string, language: string)
    requires |logs| >= 1
    ensures CompileErrorBody(logs[..|logs| - 1] + [x], i, name, language) == CompileErrorBody(logs, i, name, language)
    decreases |logs| - i
  {
    var other := logs[..|logs| - 1] + [x];
    assert |other| == |logs|;
    if i + 1 < |logs| {
      assert other[i] == logs[i];
      CompileErrorBodySkipsLastLine(logs, x, i + 1, name, language);
    }
  }

  /** Nothing after a "Dịch lỗi!" line reaches the message. */
  lemma {:induction false} CompileErrorBodyStops(logs: seq<string>, other: seq<string>, k: nat, i: nat, name: string, language: string)
    requires i <= k < |logs| && k < |other| && logs[..k + 1] == other[..k + 1]
    requires logs[k] == CompileFailed
    ensures CompileErrorBody(logs, i, name, language) == CompileErrorBody(other, i, name, language)
    decreases k - i
  {
    assert logs[i] == logs[..k + 1][i] == other[..k + 1][i] == other[i];
    if i < k {
      CompileErrorBodyStops(logs, other, k, i + 1, name, language);
    }
  }

  /** The first piece of a split is the text up to the first separator. */
  lemma {:induction false} SplitHeadIsPrefix(s: string, c: char)
    ensures IsPrefix(Split(s, c)[0], s)
    decreases |s|
  {
    if s != [] && s[0] != c {
      SplitHeadIsPrefix(s[1..], c);
    }
  }

  /**
   * A compiler line that names the source file is renamed: its leading file
   * name becomes "main". In a Pascal compile, an "Error:" line that does not
   * name the file is dropped; every other line is kept as it is.
   */
  lemma CompileErrorLineCases(line: string, name: string, language: string)
    ensures Split(line, '.')[0] == name ==>
      IsPrefix(name, line) && CompileErrorLine(line, name, language) == Some("main" + line[|name|..])
    ensures Split(line, '.')[0] != name && Split(line, ' ')[0] == "Error:" && language == "pas"
      ==> CompileErrorLine(line, name, language) == None
    ensures Split(line, '.')[0] != name && (Split(line, ' ')[0] != "Error:" || language != "pas")
      ==> CompileErrorLine(line, name, language) == Some(line)
  {
    SplitHeadIsPrefix(line, '.');
  }

  // ---------------------------------------------------------------------
  // Cutting the log into blocks
  // ---------------------------------------------------------------------

  /** The indices, from `i` on, of the lines holding the sentinel. */
  function SentinelLines(logs: seq<string>, i: nat): (r: seq<nat>)
    ensures forall k :: 0 <= k < |r| ==> i <= r[k] < |logs| && IsSentinel(logs[r[k]])
    decreases |logs| - i
  {
    if i >= |logs| then []
    else (if IsSentinel(logs[i]) then [i] else []) + SentinelLines(logs, i + 1)
  }

  /** Lines without the sentinel add no block boundary. */
  lemma {:induction false} SentinelLinesSkip(logs: seq<string>, i: nat)
    ensures SentinelLines(logs, i) == SentinelLines(logs, NextSentinel(logs, i))
    decreases |logs| - i
  {
    if i < |logs| && !IsSentinel(logs[i]) {
      SentinelLinesSkip(logs, i + 1);
    }
  }

  /** Where block `k` of the blocks starting at `starts` ends: the next start, or the end of the log. */
  function BlockEnd(starts: seq<nat>, k: nat, n: nat): nat
    requires k < |starts|
  {
    if k + 1 < |starts| then starts[k + 1] else n
  }

  /** From a sentinel line (or the end) on, there is one block per sentinel line. */
  lemma {:induction false} BlockCount(msgs: Messages, markers: seq<string>, logs: seq<string>, i: nat,
    timeLimitMs: int, bs: seq<Block>)
    requires KnowsCodes(msgs, markers)
    requires i >= |logs| || IsSentinel(logs[i])
    requires BlocksFrom(msgs, markers, logs, i, timeLimitMs) == Ok(bs)
    ensures |bs| == |SentinelLines(logs, i)|
    decreases |logs| - i
  {
    if i < |logs| {
      var end := NextSentinel(logs, i + 1);
      var rest := BlocksFrom(msgs, markers, logs, end, timeLimitMs).value;
      BlockCount(msgs, markers, logs, end, timeLimitMs, rest);
      SentinelLinesSkip(logs, i + 1);
    }
  }

  /**
   * Block `k` is the lines from the `k`-th sentinel line up to the line
   * before the next one, or to the end of the log.
   */
  lemma {:induction false} BlockExtent(msgs: Messages, markers: seq<string>, logs: seq<string>, i: nat,
    timeLimitMs: int, bs: seq<Block>, k: nat)
    requires KnowsCodes(msgs, markers)
    requires i >= |logs| || IsSentinel(logs[i])
    requires BlocksFrom(msgs, markers, logs, i, timeLimitMs) == Ok(bs)
    requires k < |bs|
    ensures var starts := SentinelLines(logs, i);
      k < |starts| && starts[k] < BlockEnd(starts, k, |logs|) <= |logs|
      && BlockAt(msgs, markers, logs, starts[k], BlockEnd(starts, k, |logs|), timeLimitMs) == Ok(bs[k])
    decreases |logs| - i, 1
  {
    if k == 0 {
      BlockExtentFirst(msgs, markers, logs, i, timeLimitMs, bs);
    } else {
      BlockExtentNext(msgs, markers, logs, i, timeLimitMs, bs, k);
    }
  }

  /** The first block runs from the sentinel line at `i` to the next sentinel line. */
  lemma BlockExtentFirst(msgs: Messages, markers: seq<string>, logs: seq<string>, i: nat,
    timeLimitMs: int, bs: seq<Block>)
    requires KnowsCodes(msgs, markers)
    requires i < |logs| && IsSentinel(logs[i])
    requires BlocksFrom(msgs, markers, logs, i, timeLimitMs) == Ok(bs)
    ensures var starts := SentinelLines(logs, i);
      0 < |starts| && starts[0] < BlockEnd(starts, 0, |logs|) <= |logs|
      && BlockAt(msgs, markers, logs, starts[0], BlockEnd(starts, 0, |logs|), timeLimitMs) == Ok(bs[0])
  {
    var end := NextSentinel(logs, i + 1);
    BlocksFromCons(msgs, markers, logs, i, timeLimitMs, bs);
    SentinelLinesSkip(logs, i + 1);
    assert SentinelLines(logs, i) == [i] + SentinelLines(logs, end);
    BlockEndFirst(logs, i, end);
  }

  /** Block `k > 0` of the blocks from `i` is block `k - 1` of the blocks from the next sentinel line. */
  lemma {:induction false} BlockExtentNext(msgs: Messages, markers: seq<string>, logs: seq<string>, i: nat,
    timeLimitMs: int, bs: seq<Block>, k: nat)
    requires KnowsCodes(msgs, markers)
    requires i < |logs| && IsSentinel(logs[i])
    requires BlocksFrom(msgs, markers, logs, i, timeLimitMs) == Ok(bs)
    requires 0 < k < |bs|
    ensures var starts := SentinelLines(logs, i);
      k < |starts| && starts[k] < BlockEnd(starts, k, |logs|) <= |logs|
      && BlockAt(msgs, markers, logs, starts[k], BlockEnd(starts, k, |logs|), timeLimitMs) == Ok(bs[k])
    decreases |logs| - i, 0
  {
    var end := NextSentinel(logs, i + 1);
    BlocksFromCons(msgs, markers, logs, i, timeLimitMs, bs);
    SentinelLinesSkip(logs, i + 1);
    var starts := SentinelLines(logs, i);
    assert starts == [i] + SentinelLines(logs, end);
    BlockExtent(msgs, markers, logs, end, timeLimitMs, bs[1..], k - 1);
    BlockEndShift(starts, SentinelLines(logs, end), i, k, |logs|);
  }

  /** A successful parse from a sentinel line is the first block followed by the blocks from the next sentinel. */
  lemma BlocksFromCons(msgs: Messages, markers: seq<string>, logs: seq<string>, i: nat, timeLimitMs: int,
    bs: seq<Block>)
    requires KnowsCodes(msgs, markers)
    requires i < |logs|
    requires BlocksFrom(msgs, markers, logs, i, timeLimitMs) == Ok(bs)
    ensures |bs| > 0
    ensures BlockAt(msgs, markers, logs, i, NextSentinel(logs, i + 1), timeLimitMs) == Ok(bs[0])
    ensures BlocksFrom(msgs, markers, logs, NextSentinel(logs, i + 1), timeLimitMs) == Ok(bs[1..])
  {
  }

  /** The first block of the blocks from a sentinel line ends at the next sentinel line, or at the end of the log. */
  lemma BlockEndFirst(logs: seq<string>, i: nat, end: nat)
    requires i < |logs| && end == NextSentinel(logs, i + 1)
    requires SentinelLines(logs, i) == [i] + SentinelLines(logs, end)
    ensures BlockEnd(SentinelLines(logs, i), 0, |logs|) == end
  {
  }

  /** Block `k` of the list with one start in front is block `k - 1` of the rest. */
  lemma BlockEndShift(starts: seq<nat>, rest: seq<nat>, i: nat, k: nat, n: nat)
    requires starts == [i] + rest && 0 < k < |starts|
    ensures starts[k] == rest[k - 1] && BlockEnd(starts, k, n) == BlockEnd(rest, k - 1, n)
  {
  }

  /** A parsed log has one test per line from index 1 on that holds the sentinel; earlier lines make none. */
  lemma TestCount(msgs: Messages, markers: seq<string>, logs: seq<string>, timeLimitMs: int)
    requires KnowsCodes(msgs, markers)
    ensures TestOutcome(msgs, markers, logs, timeLimitMs).Ok? ==>
      |TestOutcome(msgs, markers, logs, timeLimitMs).value.tests| == |SentinelLines(logs, 1)|
  {
    var first := NextSentinel(logs, 1);
    var blocks := BlocksFrom(msgs, markers, logs, first, timeLimitMs);
    if blocks.Ok? {
      SentinelLinesSkip(logs, 1);
      BlockCount(msgs, markers, logs, first, timeLimitMs, blocks.value);
    }
  }

  // ---------------------------------------------------------------------
  // A block's verdict, time and exit code
  // ---------------------------------------------------------------------

  /** The marker texts differ from the AC text (otherwise a "found" marker would leave the verdict AC). */
  predicate MarkersDistinct(msgs: Messages, markers: seq<string>)
    requires KnowsCodes(msgs, markers)
  {
    forall m | m in markers :: msgs[m] != msgs["AC"]
  }

  /** The text of the first marker, in priority order, that occurs in the line. */
  function FirstMarker(msgs: Messages, markers: seq<string>, line: string): Option<string>
    requires forall m | m in markers :: m in msgs
  {
    if markers == [] then None
    else if Contains(line, msgs[markers[0]]) then Some(msgs[markers[0]])
    else FirstMarker(msgs, markers[1..], line)
  }

  /** Only an AC verdict changes, and it becomes the first marker in priority order found in the line. */
  lemma {:induction false} MarkersPriority(msgs: Messages, markers: seq<string>, c: nat, line: string, v: string)
    requires KnowsCodes(msgs, markers) && MarkersDistinct(msgs, markers)
    requires c <= |markers|
    ensures MarkersFrom(msgs, markers, c, line, v)
         == if v == msgs["AC"] then GetOr(FirstMarker(msgs, markers[c..], line), v) else v
    decreases |markers| - c
  {
    if c < |markers| {
      var m := markers[c];
      var next := if Contains(line, msgs[m]) && v == msgs["AC"] then msgs[m] else v;
      MarkersPriority(msgs, markers, c + 1, line, next);
      assert markers[c..][0] == m && markers[c..][1..] == markers[c + 1..];
    }
  }

  /** The marker of the first line of `logs[k..end]` that holds any marker. */
  function FirstMarkedLine(msgs: Messages, markers: seq<string>, logs: seq<string>, k: nat, end: nat): Option<string>
    requires forall m | m in markers :: m in msgs
    requires end <= |logs|
    decreases end - k
  {
    if k >= end then None
    else match FirstMarker(msgs, markers, logs[k])
      case Some(v) => Some(v)
      case None => FirstMarkedLine(msgs, markers, logs, k + 1, end)
  }

  /** The index of the last time line ("Thời gian ...") of `logs[k..end]`. */
  function LastTimeLine(logs: seq<string>, k: nat, end: nat): (r: Option<nat>)
    requires end <= |logs|
    ensures r.Some? ==> k <= r.value < end && IsTimeLine(Split(logs[r.value], ' '))
    decreases end - k
  {
    if k >= end then None
    else match LastTimeLine(logs, k + 1, end)
      case Some(j) => Some(j)
      case None => if IsTimeLine(Split(logs[k], ' ')) then Some(k) else None
  }

  /** The position of the last "exit" "code:" pair from `idx` on that has at least one word after the code. */
  function LastExit(words: seq<string>, idx: nat): (r: Option<nat>)
    ensures r.Some? ==>
      idx <= r.value && r.value + 3 < |words| && words[r.value] == "exit" && words[r.value + 1] == "code:"
    decreases |words| - idx
  {
    if idx + 3 >= |words| then None
    else match LastExit(words, idx + 1)
      case Some(j) => Some(j)
      case None => if words[idx] == "exit" && words[idx + 1] == "code:" then Some(idx) else None
  }

  /** Within a line, the exit code is the one after the last "exit" "code:" pair, or is left as it was. */
  lemma {:induction false} ExitCodeIsLast(words: seq<string>, idx: nat, code: int)
    ensures ExitFrom(words, idx, code).Ok? ==>
      match LastExit(words, idx)
      case None => ExitFrom(words, idx, code).value == code
      case Some(j) => ParseInt(words[j + 2]) == Some(ExitFrom(words, idx, code).value)
    decreases |words| - idx
  {
    if idx + 3 < |words| {
      if words[idx] == "exit" && words[idx + 1] == "code:" {
        match ParseInt(words[idx + 2])
        case None =>
        case Some(n) => ExitCodeIsLast(words, idx + 1, n);
      } else {
        ExitCodeIsLast(words, idx + 1, code);
      }
    }
  }

  /** The index of the last line of `logs[k..end]` holding an "exit" "code:" pair that counts. */
  function LastExitLine(logs: seq<string>, k: nat, end: nat): (r: Option<nat>)
    requires end <= |logs|
    ensures r.Some? ==> k <= r.value < end && LastExit(Split(logs[r.value], ' '), 0).Some?
    decreases end - k
  {
    if k >= end then None
    else match LastExitLine(logs, k + 1, end)
      case Some(j) => Some(j)
      case None => if LastExit(Split(logs[k], ' '), 0).Some? then Some(k) else None
  }

  /** What one line does to the carried state, piece by piece. */
  lemma ScanLineParts(msgs: Messages, markers: seq<string>, st: Scan, line: string)
    requires KnowsCodes(msgs, markers)
    ensures var r := ScanLine(msgs, markers, st, line); var words := Split(line, ' ');
      r.Ok? ==>
        r.value.message == MarkersFrom(msgs, markers, 0, line, st.message)
        && LineTime(words, st.time) == Some(r.value.time)
        && ExitFrom(words, 0, st.exitCode) == Ok(r.value.exitCode)
  {
  }

  lemma {:induction false} FirstMarkerNotAC(msgs: Messages, markers: seq<string>, line: string)
    requires KnowsCodes(msgs, markers) && MarkersDistinct(msgs, markers)
    ensures FirstMarker(msgs, markers, line).Some? ==> FirstMarker(msgs, markers, line).value != msgs["AC"]
    decreases |markers|
  {
    if markers != [] && !Contains(line, msgs[markers[0]]) {
      FirstMarkerNotAC(msgs, markers[1..], line);
    }
  }

  /** A block's verdict is fixed by the first line holding a marker; later lines do not change it. */
  lemma {:induction false} ScanVerdict(msgs: Messages, markers: seq<string>, logs: seq<string>, k: nat, end: nat, st: Scan)
    requires KnowsCodes(msgs, markers) && MarkersDistinct(msgs, markers)
    requires k <= end <= |logs|
    ensures var r := ScanLines(msgs, markers, logs, k, end, st);
      r.Ok? ==>
        r.value.message
        == if st.message == msgs["AC"] then GetOr(FirstMarkedLine(msgs, markers, logs, k, end), msgs["AC"]) else st.message
    decreases end - k
  {
    if k < end {
      var next := ScanLine(msgs, markers, st, logs[k]);
      if next.Ok? {
        ScanLineParts(msgs, markers, st, logs[k]);
        MarkersPriority(msgs, markers, 0, logs[k], st.message);
        assert markers[0..] == markers;
        FirstMarkerNotAC(msgs, markers, logs[k]);
        ScanVerdict(msgs, markers, logs, k + 1, end, next.value);
      }
    }
  }

  /** Only a time line sets the time, and then whatever it was before. */
  lemma LineTimeStart(words: seq<string>, time: int)
    ensures IsTimeLine(words) ==> LineTime(words, time) == LineTime(words, 0)
    ensures !IsTimeLine(words) ==> LineTime(words, time) == Some(time)
  {
  }

  /** A block's time comes from its last time line; without one it is left as it was. */
  lemma {:induction false} ScanTime(msgs: Messages, markers: seq<string>, logs: seq<string>, k: nat, end: nat, st: Scan)
    requires KnowsCodes(msgs, markers)
    requires k <= end <= |logs|
    ensures var r := ScanLines(msgs, markers, logs, k, end, st);
      r.Ok? ==>
        match LastTimeLine(logs, k, end)
        case None => r.value.time == st.time
        case Some(j) => LineTime(Split(logs[j], ' '), 0) == Some(r.value.time)
    decreases end - k
  {
    if k < end {
      var next := ScanLine(msgs, markers, st, logs[k]);
      if next.Ok? {
        var words := Split(logs[k], ' ');
        assert LineTime(words, st.time) == Some(next.value.time) by {
          ScanLineParts(msgs, markers, st, logs[k]);
        }
        LineTimeStart(words, st.time);
        ScanTime(msgs, markers, logs, k + 1, end, next.value);
      }
    }
  }

  /** A block's exit code comes from the last line with an "exit" "code:" pair; without one it is left as it was. */
  lemma {:induction false} ScanExit(msgs: Messages, markers: seq<string>, logs: seq<string>, k: nat, end: nat, st: Scan)
    requires KnowsCodes(msgs, markers)
    requires k <= end <= |logs|
    ensures var r := ScanLines(msgs, markers, logs, k, end, st);
      r.Ok? ==>
        match LastExitLine(logs, k, end)
        case None => r.value.exitCode == st.exitCode
        case Some(j) =>
          var words := Split(logs[j], ' ');
          ParseInt(words[LastExit(words, 0).value + 2]) == Some(r.value.exitCode)
    decreases end - k
  {
    if k < end {
      var next := ScanLine(msgs, markers, st, logs[k]);
      if next.Ok? {
        assert ScanLines(msgs, markers, logs, k, end, st) == ScanLines(msgs, markers, logs, k + 1, end, next.value) by {
          ScanLinesStep(msgs, markers, logs, k, end, st);
        }
        assert ExitFrom(Split(logs[k], ' '), 0, st.exitCode) == Ok(next.value.exitCode) by {
          ScanLineParts(msgs, markers, st, logs[k]);
        }
        ScanExit(msgs, markers, logs, k + 1, end, next.value);
        ScanExitStep(logs, k, end, st.exitCode, next.value.exitCode, ScanLines(msgs, markers, logs, k, end, st));
      }
    }
  }

  /** The exit-code law for lines `k ..`, from the law for lines `k + 1 ..` and what line `k` does to the code. */
  lemma ScanExitStep(logs: seq<string>, k: nat, end: nat, code: int, mid: int, r: Result<Scan, ParseError>)
    requires k < end <= |logs|
    requires ExitFrom(Split(logs[k], ' '), 0, code) == Ok(mid)
    requires r.Ok? ==>
      match LastExitLine(logs, k + 1, end)
      case None => r.value.exitCode == mid
      case Some(j) =>
        var words := Split(logs[j], ' ');
        ParseInt(words[LastExit(words, 0).value + 2]) == Some(r.value.exitCode)
    ensures r.Ok? ==>
      match LastExitLine(logs, k, end)
      case None => r.value.exitCode == code
      case Some(j) =>
        var words := Split(logs[j], ' ');
        ParseInt(words[LastExit(words, 0).value + 2]) == Some(r.value.exitCode)
  {
    var words := Split(logs[k], ' ');
    ExitCodeIsLast(words, 0, code);
    if r.Ok? && LastExitLine(logs, k + 1, end).None? {
      if LastExit(words, 0).Some? {
        assert LastExitLine(logs, k, end) == Some(k);
      } else {
        assert LastExitLine(logs, k, end).None?;
      }
    }
  }

  /**
   * A block's points come from the last word of its sentinel line; its
   * verdict starts as AC and is fixed by the first line holding a marker; a
   * TLE block takes the time limit, any other the time of its last time line
   * (0 without one); its exit code is the one of its last "exit" "code:"
   * pair (0 without one).
   */
  lemma BlockFacts(msgs: Messages, markers: seq<string>, logs: seq<string>, i: nat, end: nat, timeLimitMs: int)
    requires KnowsCodes(msgs, markers) && MarkersDistinct(msgs, markers)
    requires i < end <= |logs|
    ensures var r := BlockAt(msgs, markers, logs, i, end, timeLimitMs);
      r.Ok? ==>
        ParseLocaleDecimal(LastWord(logs[i])) == Some(r.value.points)
        && r.value.verdict == GetOr(FirstMarkedLine(msgs, markers, logs, i, end), msgs["AC"])
        && (r.value.verdict == msgs["TLE"] ==> r.value.time == timeLimitMs)
        && (r.value.verdict != msgs["TLE"] ==>
              match LastTimeLine(logs, i, end)
              case None => r.value.time == 0
              case Some(j) => LineTime(Split(logs[j], ' '), 0) == Some(r.value.time))
        && match LastExitLine(logs, i, end)
           case None => r.value.exitCode == 0
           case Some(j) =>
             var words := Split(logs[j], ' ');
             ParseInt(words[LastExit(words, 0).value + 2]) == Some(r.value.exitCode)
  {
    var st := Scan(msgs["AC"], 0, 0);
    ScanVerdict(msgs, markers, logs, i, end, st);
    ScanTime(msgs, markers, logs, i, end, st);
    ScanExit(msgs, markers, logs, i, end, st);
  }

  // ---------------------------------------------------------------------
  // The whole log's final message and maximum time
  // ---------------------------------------------------------------------

  /** The final message is the verdict of the first non-AC block, and there is none exactly when every block is AC. */
  lemma {:induction false} FirstFailureIsFirst(msgs: Messages, bs: seq<Block>)
    requires "AC" in msgs
    ensures FirstFailure(msgs, bs).None? <==> forall k :: 0 <= k < |bs| ==> bs[k].verdict == msgs["AC"]
    ensures forall k ::
      (0 <= k < |bs| && bs[k].verdict != msgs["AC"] && forall j :: 0 <= j < k ==> bs[j].verdict == msgs["AC"])
      ==> FirstFailure(msgs, bs) == Some(bs[k].verdict)
    decreases |bs|
  {
    if bs != [] {
      var init := bs[..|bs| - 1];
      FirstFailureIsFirst(msgs, init);
      assert forall k :: 0 <= k < |init| ==> init[k] == bs[k];
    }
  }

  /** The largest time is at least 0 and every block's time, and is 0 or one of them. */
  lemma {:induction false} MaxTimeIsMax(bs: seq<Block>)
    ensures MaxTime(bs) >= 0
    ensures forall k :: 0 <= k < |bs| ==> bs[k].time <= MaxTime(bs)
    ensures MaxTime(bs) == 0 || exists k :: 0 <= k < |bs| && bs[k].time == MaxTime(bs)
    decreases |bs|
  {
    if bs != [] {
      var init := bs[..|bs| - 1];
      MaxTimeIsMax(init);
      assert forall k :: 0 <= k < |init| ==> init[k] == bs[k];
      if MaxTime(bs) != 0 && MaxTime(bs) != bs[|bs| - 1].time {
        var k :| 0 <= k < |init| && init[k].time == MaxTime(init);
        assert bs[k].time == MaxTime(bs);
      }
    }
  }

  /**
   * On the test-block path, the tests are the blocks in order (an RE test's
   * message carries " (exit code: N)", no other does), the final message is
   * the first non-AC verdict without that suffix, or AC, and the maximum
   * time bounds every test's time.
   */
  lemma OutcomeFacts(msgs: Messages, markers: seq<string>, logs: seq<string>, timeLimitMs: int)
    requires KnowsCodes(msgs, markers)
    ensures var first := NextSentinel(logs, 1);
      var r := TestOutcome(msgs, markers, logs, timeLimitMs);
      r.Ok? ==>
        BlocksFrom(msgs, markers, logs, first, timeLimitMs).Ok?
        && var bs := BlocksFrom(msgs, markers, logs, first, timeLimitMs).value;
        |r.value.tests| == |bs|
        && (forall k :: 0 <= k < |bs| ==>
              r.value.tests[k].points == bs[k].points && r.value.tests[k].executionTime == bs[k].time
              && r.value.tests[k].message
                 == if bs[k].verdict == msgs["RE"] then bs[k].verdict + " (exit code: " + IntToString(bs[k].exitCode) + ")"
                    else bs[k].verdict)
        && ((forall k :: 0 <= k < |bs| ==> bs[k].verdict == msgs["AC"]) ==> r.value.finalMessage == msgs["AC"])
        && (forall k ::
              (0 <= k < |bs| && bs[k].verdict != msgs["AC"] && forall j :: 0 <= j < k ==> bs[j].verdict == msgs["AC"])
              ==> r.value.finalMessage == bs[k].verdict)
        && r.value.maxTime >= 0
        && (forall k :: 0 <= k < |bs| ==> r.value.tests[k].executionTime <= r.value.maxTime)
  {
    var first := NextSentinel(logs, 1);
    var blocks := BlocksFrom(msgs, markers, logs, first, timeLimitMs);
    if blocks.Ok? {
      FirstFailureIsFirst(msgs, blocks.value);
      MaxTimeIsMax(blocks.value);
    }
  }
}
