/**
 * The error side of a run (`handle_search_command_stderr_io`): the lines
 * the child writes to stderr are kept in a buffer that persists between
 * invocations of the handler, minus the noise of unreadable directories
 * and vanished files, until 20 lines have been collected; at the end of
 * the stream whatever was kept is reported and the buffer is reset.
 */
module Errors {
  import opened Wrappers
  import opened CStrings
  import opened Foreign

  /** The buffer and the flag the handler keeps in static variables. */
  datatype ErrorLog = ErrorLog(msgs: string, truncated: bool)

  /** The report shown at the end of a stream with errors. */
  datatype ErrorReport = ErrorReport(
    /** Whether the report offers to disable quick search (a quick-mode run). */
    offerDisableQuickSearch: bool,
    /** The kept errors, with a note when they were cut. */
    details: string)

  /** How many lines of errors are kept. */
  const MaxErrorLines := 20

  const TooManyErrors := "\n... Too many errors to display ..."

  /**
   * Whether a stderr line (as read, with its terminator) is worth keeping:
   * not about a denied permission or a missing file, not from `grep`, and
   * not exactly `find: `.
   */
  predicate KeepsError(line: string) {
    !Contains(line, "ermission denied")
    && !Contains(line, "No such file or directory")
    && !StartsWith(line, "grep: ")
    && line != "find: "
  }

  /** One line read from stderr. */
  function Absorb(log: ErrorLog, h: Helpers, line: string): (r: ErrorLog)
    ensures log.truncated ==> r == log
    ensures !KeepsError(line) ==> r == log
  {
    if log.truncated || !KeepsError(line) then log
    else
      var (cut, truncated) := h.limitStringToXLines(log.msgs + line, MaxErrorLines);
      ErrorLog(cut, truncated)
  }

  /** The lines of one or more invocations, in order. */
  function AbsorbAll(log: ErrorLog, h: Helpers, lines: seq<string>): ErrorLog
    decreases |lines|
  {
    if lines == [] then log else Absorb(AbsorbAll(log, h, lines[..|lines| - 1]), h, lines[|lines| - 1])
  }

  /**
   * What the end of the stream shows: nothing when no error was kept;
   * otherwise the kept text, with a note when it was cut, offered with a
   * way to disable quick search when the run was in quick mode.
   */
  function Report(log: ErrorLog, quickMode: bool): (r: Option<ErrorReport>)
    ensures r.Some? <==> log.msgs != []
    ensures r.Some? ==> (r.value.offerDisableQuickSearch == quickMode
      && StartsWith(r.value.details, log.msgs)
      && (log.truncated ==> r.value.details == log.msgs + TooManyErrors)
      && (!log.truncated ==> r.value.details == log.msgs))
  {
    if log.msgs == [] then None
    else
      var details := if log.truncated then log.msgs + TooManyErrors else log.msgs;
      assert details[..|log.msgs|] == log.msgs;
      Some(ErrorReport(quickMode, details))
  }

  /** Reading the lines of two invocations is reading them in one. */
  lemma {:induction false} AbsorbAllSplits(log: ErrorLog, h: Helpers, a: seq<string>, b: seq<string>)
    ensures AbsorbAll(log, h, a + b) == AbsorbAll(AbsorbAll(log, h, a), h, b)
    decreases |b|
  {
    if b == [] {
      assert a + b == a;
    } else {
      var ab := a + b;
      assert ab[..|ab| - 1] == a + b[..|b| - 1];
      assert ab[|ab| - 1] == b[|b| - 1];
      AbsorbAllSplits(log, h, a, b[..|b| - 1]);
    }
  }

  /** Once the buffer has been cut, no later line changes it. */
  lemma {:induction false} TruncatedKeepsBuffer(log: ErrorLog, h: Helpers, lines: seq<string>)
    requires log.truncated
    ensures AbsorbAll(log, h, lines) == log
    decreases |lines|
  {
    if lines != [] {
      TruncatedKeepsBuffer(log, h, lines[..|lines| - 1]);
    }
  }

  /** Lines the deny list drops never reach the buffer. */
  lemma {:induction false} DroppedLinesLeaveBuffer(log: ErrorLog, h: Helpers, lines: seq<string>)
    requires forall i :: 0 <= i < |lines| ==> !KeepsError(lines[i])
    ensures AbsorbAll(log, h, lines) == log
    decreases |lines|
  {
    if lines != [] {
      DroppedLinesLeaveBuffer(log, h, lines[..|lines| - 1]);
    }
  }

  /**
   * The deny list compares `find: ` with the whole line as read, terminator
   * included, so a bare `find: ` line that ends with a newline is kept;
   * only a last line without one is dropped.
   */
  lemma FindPrefixKeptWithTerminator()
    ensures KeepsError("find: \n") && !KeepsError("find: ")
  {
    var l := "find: \n";
    assert !StartsWith(l, "grep: ") by { assert l[0] != "grep: "[0]; }
    assert !Contains(l, "ermission denied");
    assert !Contains(l, "No such file or directory");
  }

  /** The buffer and flag, persisting across invocations of the handler. */
  class StderrHandler {
    var msgs: string
    var truncated: bool

    function Log(): ErrorLog
      reads this
    {
      ErrorLog(msgs, truncated)
    }

    /** No buffer yet, nothing cut. */
    constructor ()
      ensures Log() == ErrorLog("", false)
    {
      msgs := "";
      truncated := false;
    }

    /**
     * One invocation of `handle_search_command_stderr_io` over the lines it
     * reads; ended says whether it reached the end of the stream, in which
     * case the report is produced and the buffer reset.
     */
    method HandleSearchCommandStderr(lines: seq<string>, ended: bool, quickMode: bool, h: Helpers)
      returns (report: Option<ErrorReport>)
      modifies this
      ensures var absorbed := AbsorbAll(old(Log()), h, lines);
        if ended then report == Report(absorbed, quickMode) && Log() == ErrorLog("", false)
        else report == None && Log() == absorbed
    {
      var i := 0;
      while i < |lines|
        invariant 0 <= i <= |lines|
        invariant Log() == AbsorbAll(old(Log()), h, lines[..i])
      {
        assert lines[..i + 1][..i] == lines[..i];
        if !truncated {
          if KeepsError(lines[i]) {
            var (cut, t) := h.limitStringToXLines(msgs + lines[i], MaxErrorLines);
            msgs, truncated := cut, t;
          }
        }
        i := i + 1;
      }
      assert lines[..i] == lines;
      report := None;
      if ended {
        if |msgs| > 0 {
          var details := msgs;
          if truncated {
            details := details + TooManyErrors;
          }
          report := Some(ErrorReport(quickMode, details));
        }
        truncated := false;
        msgs := "";
      }
    }
  }
}
