/**
 * The run lifecycle: the per-line result filter and de-duplication of the
 * stdout handler, the end-of-stream decision between a second pass and
 * the end of the run, and the state `spawn_search_command` sets up. The
 * pure functions state what each step does to the search record; the
 * class below performs the same steps in place.
 */
module Engine {
  import opened Wrappers
  import opened CStrings
  import opened Glob
  import opened Catalog
  import opened Foreign
  import opened SearchState
  import opened Command

  /**
   * What the stdout handler observes, in the order it observes it: a line
   * as read (with its terminator), a failed read, or an event it pumps.
   * The stop button has two places where it can be pumped: at the refresh
   * after a line (`StopRequest`), which the next turn check sees before
   * any further read, or while a read waits for data (`StopWhileWaiting`),
   * which does not end the wait, so the read in progress still completes.
   * `QuitRequest` is a quit seen by the check before a pumped event,
   * which ends the handler at once.
   */
  datatype Read = Line(text: string) | ReadFailed | StopRequest | StopWhileWaiting | QuitRequest

  /** A line without its last character (the terminator). */
  function DropLast(s: string): (t: string)
    ensures |t| == if s == [] then 0 else |s| - 1
    ensures t == s[..|t|]
  {
    if s == [] then [] else s[..|s| - 1]
  }

  /**
   * The checks a trimmed line passes before it becomes a result: longer
   * than one character, inside the folder and not the folder itself, a
   * base name matching the pattern, not hidden nor a backup unless hidden
   * files are shown, and a base name matching the regex when one is set.
   */
  predicate Accepts(s: SearchStruct, h: Helpers, line: string) {
    |line| > 1
    && StartsWith(line, s.lookInFolder) && |line| != |s.lookInFolder|
    && FnMatch(s.fileIsNamedPattern, Basename(line))
    && (s.showHiddenFiles || (!h.isPathHidden(line) && !EndsWith(line, "~")))
    && (!s.regexMatchingEnabled || h.compareRegex(s.regexString, Basename(line)))
  }

  /** The fields the filter reads are the same in both records. */
  predicate SameFilter(s: SearchStruct, t: SearchStruct) {
    s.lookInFolder == t.lookInFolder && s.fileIsNamedPattern == t.fileIsNamedPattern
    && s.showHiddenFiles == t.showHiddenFiles && s.regexMatchingEnabled == t.regexMatchingEnabled
    && s.regexString == t.regexString
  }

  /** Records with the same filter fields accept the same lines. */
  lemma AcceptsSameFilter(s: SearchStruct, t: SearchStruct, h: Helpers, line: string)
    requires SameFilter(s, t)
    ensures Accepts(s, h, line) == Accepts(t, h, line)
  {
  }

  /**
   * The head of `add_file_to_search_results`: a path already seen changes
   * nothing; a new one is recorded as seen and gets a row.
   */
  function Offer(s: SearchStruct, path: string): (t: SearchStruct)
    ensures path in t.fileHash && t.fileHash == s.fileHash + {path}
    ensures path in s.fileHash ==> t == s
    ensures path !in s.fileHash ==> t.results == s.results + [path]
    ensures t == s.(fileHash := t.fileHash, results := t.results)
    ensures ResultsConsistent(s) ==> ResultsConsistent(t)
  {
    if path in s.fileHash then s
    else
      var t := s.(fileHash := s.fileHash + {path}, results := s.results + [path]);
      assert forall p :: p in t.results <==> p in s.results || p == path;
      t
  }

  /** Offering the same path twice is offering it once. */
  lemma OfferIdempotent(s: SearchStruct, path: string)
    ensures Offer(Offer(s, path), path) == Offer(s, path)
  {
  }

  /** One line through the filter. */
  function Consider(s: SearchStruct, h: Helpers, raw: string): SearchStruct {
    var line := DropLast(raw);
    if Accepts(s, h, line) then Offer(s, line) else s
  }

  /**
   * Where the read loop stands: at a turn check, or inside a read that a
   * stop interrupted.
   */
  function Resume(s: SearchStruct, h: Helpers, events: seq<Read>, waiting: bool): Scanned {
    if waiting then CompleteRead(s, h, events) else Scan(s, h, events)
  }

  /** Whether the loop is inside an interrupted read after the read e. */
  function StillWaiting(waiting: bool, e: Read): bool {
    if e.StopWhileWaiting? then true
    else if e.Line? || e.ReadFailed? then false
    else waiting
  }

  /** One read other than quitting moves the loop one read on. */
  lemma ResumeStep(s: SearchStruct, h: Helpers, events: seq<Read>, waiting: bool)
    requires events != [] && !events[0].QuitRequest?
    requires if waiting then s.running == MakeItStop else s.running == Running
    ensures var t := Next(s, h, events[0]);
      Resume(s, h, events, waiting) == Resume(t, h, events[1..], StillWaiting(waiting, events[0]))
      && (StillWaiting(waiting, events[0]) ==> t.running == MakeItStop)
  {
  }

  /** How a run of the read loop ends. */
  datatype Ending =
    | Finished  // end of the stream, or a stop seen
    | Quit      // quitting was seen while events were pumped
    | Idle      // the run was not running when the loop started a turn

  datatype Scanned = Scanned(state: SearchStruct, ending: Ending)

  /** What a read other than a quit request does to the record. */
  function Next(s: SearchStruct, h: Helpers, e: Read): (t: SearchStruct)
    ensures t == s.(running := t.running, fileHash := t.fileHash, results := t.results)
    ensures e.StopRequest? || e.StopWhileWaiting? ==> t.running == MakeItStop
    ensures !e.StopRequest? && !e.StopWhileWaiting? ==> t.running == s.running
  {
    match e
    case StopRequest | StopWhileWaiting => s.(running := MakeItStop)
    case Line(text) => ConsiderFrame(s, h, text); Consider(s, h, text)
    case _ => s
  }

  /** The filter changes only the seen set and the rows. */
  lemma ConsiderFrame(s: SearchStruct, h: Helpers, raw: string)
    ensures var t := Consider(s, h, raw);
      t == s.(running := s.running, fileHash := t.fileHash, results := t.results)
  {
  }

  /**
   * The read loop of `handle_search_command_stdout_io`. Each turn first
   * looks at the run state: a pending stop ends the loop as if the pipe
   * broke, any other state than running ends it quietly. Then the next
   * read is taken; the end of the reads is the end of the stream. A stop
   * pumped while the read waits leaves the rest of the read to CompleteRead.
   */
  function Scan(s: SearchStruct, h: Helpers, events: seq<Read>): (r: Scanned)
    decreases |events|
  {
    if s.running == MakeItStop then Scanned(s, Finished)
    else if s.running != Running then Scanned(s, Idle)
    else if events == [] then Scanned(s, Finished)
    else if events[0].QuitRequest? then Scanned(s.(running := MakeItQuit), Quit)
    else if events[0].StopWhileWaiting? then CompleteRead(Next(s, h, events[0]), h, events[1..])
    else Scan(Next(s, h, events[0]), h, events[1..])
  }

  /**
   * The rest of a read during whose wait a stop was pumped: further stops
   * pumped in the same wait change nothing, quitting still ends the
   * handler, the end of the stream ends the loop, and a line read is still
   * filtered; the next turn check then ends the loop.
   */
  function CompleteRead(s: SearchStruct, h: Helpers, events: seq<Read>): (r: Scanned)
    decreases |events|
  {
    if events == [] then Scanned(s, Finished)
    else if events[0].QuitRequest? then Scanned(s.(running := MakeItQuit), Quit)
    else if events[0].Line? || events[0].ReadFailed? then Scanned(Next(s, h, events[0]), Finished)
    else CompleteRead(Next(s, h, events[0]), h, events[1..])
  }

  /** Whether the end of a run starts the thorough second pass. */
  predicate SecondPassDue(s: SearchStruct, h: Helpers) {
    !s.aborted && s.quickMode && s.firstPass && !s.disableSecondPass
    && !h.isSecondScanExcludedPath(s.lookInFolder)
  }

  /** A pending stop turns into an aborted run. */
  function NoteStop(s: SearchStruct): SearchStruct {
    if s.running == MakeItStop then s.(aborted := true) else s
  }

  /** The end of a run: unlocked, not running, the hashes destroyed. */
  function Finalise(s: SearchStruct): SearchStruct {
    s.(lock := false, running := NotRunning, notRunningTimeout := true, hashesLive := false)
  }

  /**
   * `spawn_search_command`: when the child starts on a first pass, the run
   * is locked, running, not aborted, with fresh hashes and an empty result
   * list; otherwise nothing changes.
   */
  function SpawnResult(s: SearchStruct, command: string, h: Helpers): SearchStruct {
    if h.spawn(command) == Spawned && s.firstPass then
      s.(lock := true, aborted := false, running := Running, hashesLive := true, fileHash := {}, results := [])
    else s
  }

  /** The end-of-stream branch of the stdout handler. */
  function EndOfStreamResult(s: SearchStruct, h: Helpers, r: Request, st: Settings, o: CaseOptions): SearchStruct
    requires ValidOptions(o)
  {
    var s1 := NoteStop(s);
    if SecondPassDue(s1, h) then
      var b := BuildSearchCommand(s1, false, r, st, o, h);
      SpawnResult(b.state, b.command, h)
    else Finalise(s1)
  }

  /** One invocation of the stdout handler over everything it reads. */
  function StdoutResult(s: SearchStruct, h: Helpers, events: seq<Read>, r: Request, st: Settings, o: CaseOptions): SearchStruct
    requires ValidOptions(o)
  {
    var sc := Scan(s, h, events);
    if sc.ending == Finished then EndOfStreamResult(sc.state, h, r, st, o) else sc.state
  }

  // ---------------------------------------------------------------------
  // Properties of the lifecycle

  /**
   * t is s after some reads: only the run state, the seen set and the
   * results differ, the seen set and the result list only grow, and every
   * new row was accepted by the filter and not seen before.
   */
  ghost predicate Grows(s: SearchStruct, h: Helpers, t: SearchStruct) {
    t == s.(running := t.running, fileHash := t.fileHash, results := t.results)
    && s.fileHash <= t.fileHash
    && |s.results| <= |t.results| && t.results[..|s.results|] == s.results
    && forall k :: |s.results| <= k < |t.results| ==> Accepts(s, h, t.results[k]) && t.results[k] !in s.fileHash
  }

  lemma NextGrows(s: SearchStruct, h: Helpers, e: Read)
    ensures Grows(s, h, Next(s, h, e))
  {
    if e.Line? {
      if Accepts(s, h, DropLast(e.text)) {
        AcceptedLineGrows(s, h, e.text);
      } else {
        RejectedLineGrows(s, h, e.text);
      }
    } else if e.StopRequest? || e.StopWhileWaiting? {
      GrowsByRunState(s, h, MakeItStop);
    } else {
      OtherReadGrows(s, h, e);
    }
  }

  /** A read keeps the result list consistent with the seen set. */
  lemma NextKeepsConsistent(s: SearchStruct, h: Helpers, e: Read)
    requires ResultsConsistent(s)
    ensures ResultsConsistent(Next(s, h, e))
  {
    if e.Line? {
      ConsiderKeepsConsistent(s, h, e.text);
    } else {
      var t := Next(s, h, e);
      assert t.fileHash == s.fileHash && t.results == s.results;
      ConsistencyOfRows(s, t);
    }
  }

  lemma ConsiderKeepsConsistent(s: SearchStruct, h: Helpers, raw: string)
    requires ResultsConsistent(s)
    ensures ResultsConsistent(Consider(s, h, raw))
  {
    if Accepts(s, h, DropLast(raw)) {
      assert Consider(s, h, raw) == Offer(s, DropLast(raw));
    }
  }

  lemma AcceptedLineGrows(s: SearchStruct, h: Helpers, text: string)
    requires Accepts(s, h, DropLast(text))
    ensures Grows(s, h, Next(s, h, Line(text)))
  {
    var line := DropLast(text);
    assert Next(s, h, Line(text)) == Offer(s, line);
    OfferGrows(s, h, line);
  }

  lemma RejectedLineGrows(s: SearchStruct, h: Helpers, text: string)
    requires !Accepts(s, h, DropLast(text))
    ensures Grows(s, h, Next(s, h, Line(text)))
  {
    assert Next(s, h, Line(text)) == s.(running := s.running);
    GrowsByRunState(s, h, s.running);
  }

  lemma OtherReadGrows(s: SearchStruct, h: Helpers, e: Read)
    requires !e.Line? && !e.StopRequest? && !e.StopWhileWaiting?
    ensures Grows(s, h, Next(s, h, e))
  {
    assert Next(s, h, e) == s.(running := s.running);
    GrowsByRunState(s, h, s.running);
  }

  /** Offering an accepted path only appends it, if it is new. */
  lemma OfferGrows(s: SearchStruct, h: Helpers, line: string)
    requires Accepts(s, h, line)
    ensures Grows(s, h, Offer(s, line))
  {
    var t := Offer(s, line);
    if line in s.fileHash {
      assert t == s.(running := s.running);
      GrowsByRunState(s, h, s.running);
    } else {
      assert t.results == s.results + [line];
      assert t.results[..|s.results|] == s.results;
      forall k | |s.results| <= k < |t.results|
        ensures Accepts(s, h, t.results[k]) && t.results[k] !in s.fileHash
      {
        assert t.results[k] == line;
      }
    }
  }

  lemma GrowsTrans(s: SearchStruct, m: SearchStruct, t: SearchStruct, h: Helpers)
    requires Grows(s, h, m) && Grows(m, h, t)
    ensures Grows(s, h, t)
  {
    FrameTrans(s, m, t);
    assert SameFilter(s, m);
    RowsTrans(s, m, t, h);
  }

  /** Two steps that change only the scan fields change only those. */
  lemma FrameTrans(s: SearchStruct, m: SearchStruct, t: SearchStruct)
    requires m == s.(running := m.running, fileHash := m.fileHash, results := m.results)
    requires t == m.(running := t.running, fileHash := t.fileHash, results := t.results)
    ensures t == s.(running := t.running, fileHash := t.fileHash, results := t.results)
  {
  }

  /** Rows appended over two steps were accepted and new at the start. */
  lemma RowsTrans(s: SearchStruct, m: SearchStruct, t: SearchStruct, h: Helpers)
    requires SameFilter(s, m) && s.fileHash <= m.fileHash
    requires |s.results| <= |m.results| && m.results[..|s.results|] == s.results
    requires forall k :: |s.results| <= k < |m.results| ==> Accepts(s, h, m.results[k]) && m.results[k] !in s.fileHash
    requires |m.results| <= |t.results| && t.results[..|m.results|] == m.results
    requires forall k :: |m.results| <= k < |t.results| ==> Accepts(m, h, t.results[k]) && t.results[k] !in m.fileHash
    ensures t.results[..|s.results|] == s.results
    ensures forall k :: |s.results| <= k < |t.results| ==> Accepts(s, h, t.results[k]) && t.results[k] !in s.fileHash
  {
    assert t.results[..|s.results|] == t.results[..|m.results|][..|s.results|];
    forall k | |s.results| <= k < |t.results|
      ensures Accepts(s, h, t.results[k]) && t.results[k] !in s.fileHash
    {
      if k < |m.results| {
        assert t.results[k] == t.results[..|m.results|][k];
      } else {
        AcceptsSameFilter(s, m, h, t.results[k]);
      }
    }
  }

  /** Some line among the reads is p with its terminator. */
  ghost predicate ReadsLine(events: seq<Read>, p: string) {
    exists j :: 0 <= j < |events| && events[j].Line? && DropLast(events[j].text) == p
  }

  /** Every row t has beyond those of s is a line among the reads. */
  ghost predicate NewRowsRead(s: SearchStruct, t: SearchStruct, events: seq<Read>) {
    forall k :: |s.results| <= k < |t.results| ==> ReadsLine(events, t.results[k])
  }

  /**
   * The read loop keeps the filter fields, the pass and the lock; it only
   * appends paths the filter accepts and had not seen, and each of them is
   * a line that was read.
   */
  lemma ScanGrows(s: SearchStruct, h: Helpers, events: seq<Read>)
    ensures Grows(s, h, Scan(s, h, events).state)
    ensures NewRowsRead(s, Scan(s, h, events).state, events)
  {
    ScanAppendsAccepted(s, h, events);
    ScanRowsRead(s, h, events);
  }

  /** The read loop only appends accepted, unseen paths and keeps the other fields. */
  lemma {:induction false} ScanAppendsAccepted(s: SearchStruct, h: Helpers, events: seq<Read>)
    ensures Grows(s, h, Scan(s, h, events).state)
    decreases |events|
  {
    if s.running == Running && events != [] && events[0].StopWhileWaiting? {
      WaitingStopGrows(s, h, events);
    } else if s.running == Running && events != [] && !events[0].QuitRequest? {
      var next := Next(s, h, events[0]);
      assert Scan(s, h, events) == Scan(next, h, events[1..]);
      NextGrows(s, h, events[0]);
      ScanAppendsAccepted(next, h, events[1..]);
      GrowsTrans(s, next, Scan(next, h, events[1..]).state, h);
    } else {
      GrowsByRunState(s, h, Scan(s, h, events).state.running);
    }
  }

  /** A loop whose first read is interrupted by a stop grows as CompleteRead does. */
  lemma WaitingStopGrows(s: SearchStruct, h: Helpers, events: seq<Read>)
    requires s.running == Running && events != [] && events[0].StopWhileWaiting?
    ensures Grows(s, h, Scan(s, h, events).state)
    ensures NewRowsRead(s, Scan(s, h, events).state, events)
  {
    var next := Next(s, h, events[0]);
    assert Scan(s, h, events) == CompleteRead(next, h, events[1..]);
    NextGrows(s, h, events[0]);
    CompleteReadGrows(next, h, events[1..]);
    GrowsTrans(s, next, CompleteRead(next, h, events[1..]).state, h);
    RowsFromLines(s, h, events, CompleteRead(next, h, events[1..]).state);
  }

  /** Every row the read loop appends is a line it read. */
  lemma {:induction false} ScanRowsRead(s: SearchStruct, h: Helpers, events: seq<Read>)
    ensures NewRowsRead(s, Scan(s, h, events).state, events)
    decreases |events|
  {
    if s.running == Running && events != [] && events[0].StopWhileWaiting? {
      WaitingStopGrows(s, h, events);
    } else if s.running == Running && events != [] && !events[0].QuitRequest? {
      var next := Next(s, h, events[0]);
      assert Scan(s, h, events) == Scan(next, h, events[1..]);
      ScanAppendsAccepted(next, h, events[1..]);
      ScanRowsRead(next, h, events[1..]);
      RowsFromLines(s, h, events, Scan(next, h, events[1..]).state);
    }
  }

  /**
   * The rows a running loop appends after its first read: the first read
   * adds at most its own line, and later rows come from the later reads.
   */
  lemma RowsFromLines(s: SearchStruct, h: Helpers, events: seq<Read>, t: SearchStruct)
    requires events != []
    requires Grows(Next(s, h, events[0]), h, t)
    requires NewRowsRead(Next(s, h, events[0]), t, events[1..])
    ensures NewRowsRead(s, t, events)
  {
    var next := Next(s, h, events[0]);
    var rest := events[1..];
    NextAddsItsLine(s, h, events[0]);
    forall k | |s.results| <= k < |t.results| ensures ReadsLine(events, t.results[k]) {
      if k < |next.results| {
        assert t.results[k] == t.results[..|next.results|][k];
        assert events[0].Line? && t.results[k] == DropLast(events[0].text);
      } else {
        var j :| 0 <= j < |rest| && rest[j].Line? && DropLast(rest[j].text) == t.results[k];
        assert events[j + 1] == rest[j];
      }
    }
  }

  /** A read adds no row, or the row of its own line. */
  lemma NextAddsItsLine(s: SearchStruct, h: Helpers, e: Read)
    ensures var t := Next(s, h, e);
      t.results == s.results || (e.Line? && t.results == s.results + [DropLast(e.text)])
  {
  }

  /** The rest of an interrupted read grows the record as the loop does. */
  lemma {:induction false} CompleteReadGrows(s: SearchStruct, h: Helpers, events: seq<Read>)
    ensures Grows(s, h, CompleteRead(s, h, events).state)
    ensures NewRowsRead(s, CompleteRead(s, h, events).state, events)
    decreases |events|
  {
    if events == [] {
      GrowsByRunState(s, h, s.running);
    } else if events[0].QuitRequest? {
      GrowsByRunState(s, h, MakeItQuit);
    } else if events[0].Line? || events[0].ReadFailed? {
      NextGrows(s, h, events[0]);
      var t := Next(s, h, events[0]);
      NextAddsItsLine(s, h, events[0]);
      forall k | |s.results| <= k < |t.results| ensures ReadsLine(events, t.results[k]) {
        assert t.results[k] == DropLast(events[0].text);
      }
    } else {
      var next := Next(s, h, events[0]);
      var t := CompleteRead(next, h, events[1..]).state;
      assert CompleteRead(s, h, events).state == t;
      NextGrows(s, h, events[0]);
      CompleteReadGrows(next, h, events[1..]);
      GrowsTrans(s, next, t, h);
      RowsFromLines(s, h, events, t);
    }
  }

  lemma GrowsByRunState(s: SearchStruct, h: Helpers, st: Status)
    ensures Grows(s, h, s.(running := st))
  {
    assert s.results[..|s.results|] == s.results;
  }

  /** The read loop keeps the result list consistent with the seen set. */
  lemma {:induction false} ScanKeepsConsistent(s: SearchStruct, h: Helpers, events: seq<Read>)
    requires ResultsConsistent(s)
    ensures ResultsConsistent(Scan(s, h, events).state)
    decreases |events|
  {
    if s.running == Running && events != [] && !events[0].QuitRequest? {
      var next := Next(s, h, events[0]);
      NextKeepsConsistent(s, h, events[0]);
      if events[0].StopWhileWaiting? {
        assert Scan(s, h, events) == CompleteRead(next, h, events[1..]);
        CompleteReadKeepsConsistent(next, h, events[1..]);
      } else {
        assert Scan(s, h, events) == Scan(next, h, events[1..]);
        ScanKeepsConsistent(next, h, events[1..]);
      }
    } else {
      ConsistencyOfRows(s, Scan(s, h, events).state);
    }
  }

  /** The rest of an interrupted read keeps the result list consistent. */
  lemma {:induction false} CompleteReadKeepsConsistent(s: SearchStruct, h: Helpers, events: seq<Read>)
    requires ResultsConsistent(s)
    ensures ResultsConsistent(CompleteRead(s, h, events).state)
    decreases |events|
  {
    if events == [] {
    } else if events[0].QuitRequest? {
      ConsistencyOfRows(s, s.(running := MakeItQuit));
    } else if events[0].Line? || events[0].ReadFailed? {
      NextKeepsConsistent(s, h, events[0]);
    } else {
      NextKeepsConsistent(s, h, events[0]);
      CompleteReadKeepsConsistent(Next(s, h, events[0]), h, events[1..]);
    }
  }

  /**
   * Without stop or quit requests, a running loop reaches the end of the
   * stream, and every line the filter accepts is then among the seen paths.
   */
  lemma {:induction false} ScanFindsAccepted(s: SearchStruct, h: Helpers, events: seq<Read>)
    requires s.running == Running
    requires forall j :: 0 <= j < |events| ==> events[j].Line? || events[j].ReadFailed?
    ensures Scan(s, h, events).ending == Finished
    ensures forall j :: (0 <= j < |events| && events[j].Line? && Accepts(s, h, DropLast(events[j].text))
      ==> DropLast(events[j].text) in Scan(s, h, events).state.fileHash)
    decreases |events|
  {
    if events != [] {
      var next := Next(s, h, events[0]);
      var rest := events[1..];
      var t := Scan(next, h, rest).state;
      assert Scan(s, h, events) == Scan(next, h, rest);
      NextGrows(s, h, events[0]);
      ScanGrows(next, h, rest);
      assert forall j :: 0 <= j < |rest| ==> rest[j] == events[j + 1];
      ScanFindsAccepted(next, h, rest);
      forall j | 0 <= j < |events| && events[j].Line? && Accepts(s, h, DropLast(events[j].text))
        ensures DropLast(events[j].text) in t.fileHash
      {
        if j == 0 {
          assert DropLast(events[0].text) in next.fileHash;
        } else {
          assert rest[j - 1] == events[j];
          assert SameFilter(s, next);
          assert Accepts(next, h, DropLast(events[j].text));
        }
      }
    }
  }

  /**
   * A stop pumped at a refresh, with no stop pumped during a wait before
   * it, ends the loop at the next turn check: nothing read after it matters.
   */
  lemma {:induction false} StopEndsScan(s: SearchStruct, h: Helpers, events: seq<Read>, k: nat)
    requires k < |events| && events[k] == StopRequest
    requires forall i :: 0 <= i < k ==> !events[i].StopWhileWaiting?
    ensures Scan(s, h, events) == Scan(s, h, events[..k + 1])
    decreases k
  {
    var cut := events[..k + 1];
    assert cut[0] == events[0];
    if s.running == Running && !events[0].QuitRequest? {
      var next := Next(s, h, events[0]);
      if k == 0 {
        assert cut[1..] == [];
        assert next.running == MakeItStop;
      } else {
        assert cut[1..] == events[1..][..k];
        assert forall i :: 0 <= i < k - 1 ==> events[1..][i] == events[i + 1];
        StopEndsScan(next, h, events[1..], k - 1);
      }
    }
  }

  /**
   * A stop pumped while a read waits, the first such stop, lets that read
   * complete: its line is still filtered, and nothing after it matters.
   */
  lemma {:induction false} WaitingStopEndsScan(s: SearchStruct, h: Helpers, events: seq<Read>, k: nat)
    requires k + 1 < |events| && events[k] == StopWhileWaiting
    requires events[k + 1].Line? || events[k + 1].ReadFailed?
    requires forall i :: 0 <= i < k ==> !events[i].StopWhileWaiting?
    ensures Scan(s, h, events) == Scan(s, h, events[..k + 2])
    decreases k
  {
    var cut := events[..k + 2];
    assert cut[0] == events[0];
    if s.running == Running && !events[0].QuitRequest? {
      var next := Next(s, h, events[0]);
      if k == 0 {
        assert cut[1..] == [events[1]];
        assert events[1..][0] == events[1];
      } else {
        assert cut[1..] == events[1..][..k + 1];
        assert events[1..][k - 1] == events[k] && events[1..][k] == events[k + 1];
        assert forall i :: 0 <= i < k - 1 ==> events[1..][i] == events[i + 1];
        WaitingStopEndsScan(next, h, events[1..], k - 1);
      }
    }
  }

  /**
   * The two places a stop can be pumped differ: pumped while the read
   * waits, the line being read is still listed; pumped at the refresh
   * before the read, it is never read.
   */
  lemma StopPlacesDiffer(s: SearchStruct, h: Helpers, text: string)
    requires s.running == Running
    requires Accepts(s, h, DropLast(text)) && DropLast(text) !in s.fileHash
    ensures var w := Scan(s, h, [StopWhileWaiting, Line(text)]);
      w.ending == Finished && w.state.results == s.results + [DropLast(text)]
    ensures var r := Scan(s, h, [StopRequest, Line(text)]);
      r.ending == Finished && r.state.results == s.results
  {
    WaitingStopLetsLineThrough(s, h, text);
    RefreshStopDropsLine(s, h, text);
  }

  lemma WaitingStopLetsLineThrough(s: SearchStruct, h: Helpers, text: string)
    requires s.running == Running
    requires Accepts(s, h, DropLast(text)) && DropLast(text) !in s.fileHash
    ensures var w := Scan(s, h, [StopWhileWaiting, Line(text)]);
      w.ending == Finished && w.state.results == s.results + [DropLast(text)]
  {
    var stopped := Next(s, h, StopWhileWaiting);
    var w := [StopWhileWaiting, Line(text)];
    assert w[0] == StopWhileWaiting && w[1..] == [Line(text)];
    assert Scan(s, h, w) == CompleteRead(stopped, h, [Line(text)]);
    var done := CompleteRead(stopped, h, [Line(text)]);
    assert done.state == Next(stopped, h, Line(text)) && done.ending == Finished;
    AcceptsSameFilter(s, stopped, h, DropLast(text));
    assert done.state.results == Offer(stopped, DropLast(text)).results;
  }

  lemma RefreshStopDropsLine(s: SearchStruct, h: Helpers, text: string)
    requires s.running == Running
    ensures var r := Scan(s, h, [StopRequest, Line(text)]);
      r.ending == Finished && r.state.results == s.results
  {
    var r := [StopRequest, Line(text)];
    assert r[0] == StopRequest && r[1..] == [Line(text)];
    assert Scan(s, h, r) == Scan(Next(s, h, StopRequest), h, [Line(text)]);
  }

  /** A loop that leaves a stop pending ended as at the end of the stream. */
  lemma {:induction false} ScanStopEnding(s: SearchStruct, h: Helpers, events: seq<Read>)
    requires Scan(s, h, events).state.running == MakeItStop
    ensures Scan(s, h, events).ending == Finished
    decreases |events|
  {
    if s.running == Running && events != [] && !events[0].QuitRequest? {
      if events[0].StopWhileWaiting? {
        CompleteReadStopEnding(Next(s, h, events[0]), h, events[1..]);
      } else {
        ScanStopEnding(Next(s, h, events[0]), h, events[1..]);
      }
    }
  }

  /** An interrupted read that leaves the stop pending ended as at the end of the stream. */
  lemma {:induction false} CompleteReadStopEnding(s: SearchStruct, h: Helpers, events: seq<Read>)
    requires CompleteRead(s, h, events).state.running == MakeItStop
    ensures CompleteRead(s, h, events).ending == Finished
    decreases |events|
  {
    if events != [] && !events[0].QuitRequest? && !events[0].Line? && !events[0].ReadFailed? {
      CompleteReadStopEnding(Next(s, h, events[0]), h, events[1..]);
    }
  }

  /**
   * Reading the same output twice lists nothing more than reading it once:
   * the second reading finds every accepted path already seen.
   */
  lemma RereadAddsNothing(s: SearchStruct, h: Helpers, events: seq<Read>)
    requires forall j :: 0 <= j < |events| ==> events[j].Line? || events[j].ReadFailed?
    ensures Scan(s, h, events + events).state.results == Scan(s, h, events).state.results
    ensures Scan(s, h, events + events).state.fileHash == Scan(s, h, events).state.fileHash
  {
    if s.running == Running {
      var t := Scan(s, h, events).state;
      ScanAppend(s, h, events, events);
      ScanFindsAccepted(s, h, events);
      ScanGrows(s, h, events);
      assert SameFilter(s, t);
      forall j | 0 <= j < |events| && events[j].Line? && Accepts(t, h, DropLast(events[j].text))
        ensures DropLast(events[j].text) in t.fileHash
      {
        AcceptsSameFilter(s, t, h, DropLast(events[j].text));
      }
      ScanAddsNothing(t, h, events);
    }
  }

  /** Without requests, the loop over a + b is the loop over a, then over b. */
  lemma {:induction false} ScanAppend(s: SearchStruct, h: Helpers, a: seq<Read>, b: seq<Read>)
    requires s.running == Running
    requires forall j :: 0 <= j < |a| ==> a[j].Line? || a[j].ReadFailed?
    ensures Scan(s, h, a).state.running == Running
    ensures Scan(s, h, a + b) == Scan(Scan(s, h, a).state, h, b)
    decreases |a|
  {
    if a == [] {
      assert a + b == b;
    } else {
      var next := Next(s, h, a[0]);
      assert (a + b)[0] == a[0];
      assert (a + b)[1..] == a[1..] + b;
      assert forall j :: 0 <= j < |a[1..]| ==> a[1..][j] == a[j + 1];
      ScanAppend(next, h, a[1..], b);
    }
  }

  /** Reads whose accepted paths are all seen leave a running record as it is. */
  lemma {:induction false} ScanAddsNothing(t: SearchStruct, h: Helpers, events: seq<Read>)
    requires t.running == Running
    requires forall j :: 0 <= j < |events| ==> events[j].Line? || events[j].ReadFailed?
    requires forall j :: (0 <= j < |events| && events[j].Line? && Accepts(t, h, DropLast(events[j].text))
      ==> DropLast(events[j].text) in t.fileHash)
    ensures Scan(t, h, events).state == t
    decreases |events|
  {
    if events != [] {
      assert Next(t, h, events[0]) == t;
      var rest := events[1..];
      assert forall j :: 0 <= j < |rest| ==> rest[j] == events[j + 1];
      ScanAddsNothing(t, h, rest);
    }
  }

  /**
   * A stop seen by a running handler ends the run as aborted: no second
   * pass, not running, unlocked.
   */
  lemma StopAbortsRun(s: SearchStruct, h: Helpers, events: seq<Read>, r: Request, st: Settings, o: CaseOptions)
    requires ValidOptions(o)
    requires Scan(s, h, events).state.running == MakeItStop
    ensures var t := StdoutResult(s, h, events, r, st, o);
      t.aborted && t.running == NotRunning && !t.lock && !t.hashesLive
  {
    ScanStopEnding(s, h, events);
  }

  /**
   * The end of a quick first pass starts the second pass as a later pass;
   * the end of that pass finishes the run, so there is at most one.
   */
  lemma AtMostOneSecondPass(s: SearchStruct, h: Helpers, r: Request, st: Settings, o: CaseOptions,
                            events: seq<Read>, r2: Request, st2: Settings)
    requires ValidOptions(o)
    requires SecondPassDue(NoteStop(s), h)
    ensures var s1 := EndOfStreamResult(s, h, r, st, o);
      !s1.firstPass
      && (Scan(s1, h, events).ending == Finished ==>
            var s2 := StdoutResult(s1, h, events, r2, st2, o);
            s2.running == NotRunning && !s2.lock && !s2.firstPass)
  {
    var s0 := NoteStop(s);
    var b := BuildSearchCommand(s0, false, r, st, o, h);
    BuildKeepsRunState(s0, false, r, st, o, h);
    var s1 := EndOfStreamResult(s, h, r, st, o);
    assert s1 == SpawnResult(b.state, b.command, h);
    assert !s1.firstPass;
    ScanGrows(s1, h, events);
  }

  /** A second pass shares the seen set of the first: a path found by both is listed once. */
  lemma SecondPassKeepsSeen(s: SearchStruct, h: Helpers, r: Request, st: Settings, o: CaseOptions)
    requires ValidOptions(o)
    requires SecondPassDue(NoteStop(s), h)
    ensures var s1 := EndOfStreamResult(s, h, r, st, o);
      s1.fileHash == s.fileHash && s1.results == s.results
  {
    BuildKeepsRunState(NoteStop(s), false, r, st, o, h);
  }

  /**
   * When the second pass cannot be started, the run is left running and
   * locked: nothing on that path finishes it.
   */
  lemma FailedSecondPassStaysRunning(s: SearchStruct, h: Helpers, r: Request, st: Settings, o: CaseOptions)
    requires ValidOptions(o)
    requires s.running == Running && SecondPassDue(s, h)
    requires h.spawn(BuildSearchCommand(s, false, r, st, o, h).command) != Spawned
    ensures var t := EndOfStreamResult(s, h, r, st, o);
      t.running == Running && t.lock == s.lock
  {
    BuildKeepsRunState(s, false, r, st, o, h);
  }

  /** A first-pass spawn starts a clean run; a failed spawn changes nothing. */
  lemma SpawnStartsRun(s: SearchStruct, command: string, h: Helpers)
    ensures var t := SpawnResult(s, command, h);
      (h.spawn(command) != Spawned ==> t == s)
      && (h.spawn(command) == Spawned && s.firstPass ==>
            t.running == Running && t.lock && !t.aborted && t.hashesLive
            && t.fileHash == {} && t.results == [] && ResultsConsistent(t))
  {
  }

  /** Consistency is a property of the seen set and the rows alone. */
  lemma ConsistencyOfRows(s: SearchStruct, t: SearchStruct)
    requires s.fileHash == t.fileHash && s.results == t.results
    ensures ResultsConsistent(s) == ResultsConsistent(t)
  {
  }

  /** Starting a run gives a consistent record, or leaves the record as it was. */
  lemma SpawnKeepsConsistent(s: SearchStruct, command: string, h: Helpers)
    requires ResultsConsistent(s)
    ensures ResultsConsistent(SpawnResult(s, command, h))
  {
  }

  /** A whole invocation of the stdout handler keeps the result list consistent. */
  lemma StdoutKeepsConsistent(s: SearchStruct, h: Helpers, events: seq<Read>, r: Request, st: Settings, o: CaseOptions)
    requires ValidOptions(o) && ResultsConsistent(s)
    ensures ResultsConsistent(StdoutResult(s, h, events, r, st, o))
  {
    ScanKeepsConsistent(s, h, events);
    var t := Scan(s, h, events).state;
    var t1 := NoteStop(t);
    ConsistencyOfRows(t, t1);
    if SecondPassDue(t1, h) {
      var b := BuildSearchCommand(t1, false, r, st, o, h);
      BuildKeepsRunState(t1, false, r, st, o, h);
      ConsistencyOfRows(t1, b.state);
      SpawnKeepsConsistent(b.state, b.command, h);
    } else {
      ConsistencyOfRows(t1, Finalise(t1));
    }
  }

  /**
   * The constraint loop of `build_search_command`, over the command head
   * and the flags it collects.
   */
  method ComposeConstraints(o: CaseOptions, h: Helpers, head: string, cs: seq<Constraint>) returns (c: Composed)
    requires ValidOptions(o)
    ensures c == Compose(o, h, Composed(head, false, false, false, None), cs)
  {
    c := Composed(head, false, false, false, None);
    var i := 0;
    while i < |cs|
      invariant 0 <= i <= |cs|
      invariant Compose(o, h, c, cs[i..]) == Compose(o, h, Composed(head, false, false, false, None), cs)
    {
      assert cs[i..][1..] == cs[i + 1..];
      c := ApplyConstraint(o, h, c, cs[i]);
      i := i + 1;
    }
    assert cs[i..] == [];
  }

  /**
   * One turn of the constraint loop of `build_search_command`: the marker
   * options set their flag, the regex option records its regex, every
   * other option adds its fragment to the command.
   */
  method ApplyConstraint(o: CaseOptions, h: Helpers, acc: Composed, c: Constraint) returns (next: Composed)
    requires ValidOptions(o)
    ensures next == Step(o, h, acc, c)
  {
    var command, disableMount, showHidden, regexEnabled, regex :=
      acc.command, acc.disableMount, acc.showHidden, acc.regexEnabled, acc.regexString;
    FlagsExclusive(o, c);
    if HasFlag(o, c, OtherFilesystems) {
      disableMount := true;
    } else if HasFlag(o, c, ShowHidden) {
      showHidden := true;
    } else if HasFlag(o, c, Regex) {
      regexEnabled := true;
      regex := Some(Escaped(h, c.text));
    } else {
      command := command + Fragment(o, h, c);
    }
    next := Composed(command, disableMount, showHidden, regexEnabled, regex);
  }

  // ---------------------------------------------------------------------
  // The search record, updated in place

  /**
   * The global `search_command` record. C assigns its fields one at a
   * time; a struct is a value, so each method gathers the new values of
   * the fields it assigns and writes them back in one update of the field
   * that holds the record; where C reads a field it has just assigned
   * (`first_pass`, `aborted`), the method reads the value it gathered.
   */
  class SearchCommand {
    var record: SearchStruct

    /** The zero-initialised record of a program that has not searched yet. */
    constructor ()
      ensures record == SearchStruct("", "", None, false, false, false, false, false,
        NotRunning, false, false, false, false, {}, [])
    {
      record := SearchStruct("", "", None, false, false, false, false, false,
        NotRunning, false, false, false, false, {}, []);
    }

    /** `add_file_to_search_results`, up to the row it appends. */
    method AddFileToSearchResults(path: string)
      modifies this
      ensures record == Offer(old(record), path)
    {
      if path in record.fileHash {
        return;
      }
      record := record.(fileHash := record.fileHash + {path}, results := record.results + [path]);
    }

    /** `build_search_command (first_pass)`. */
    method BuildSearchCommand(pass: bool, r: Request, st: Settings, o: CaseOptions, h: Helpers) returns (command: string)
      requires ValidOptions(o)
      modifies this
      ensures Built(record, command) == Command.BuildSearchCommand(old(record), pass, r, st, o, h)
    {
      var folder := LookInFolder(r.folder);
      var quickMode := record.quickMode;
      if pass {
        quickMode := false;
      }
      record := record.(lookInFolder := folder, showHiddenFiles := false, regexString := None,
        firstPass := pass, quickMode := quickMode);
      if !r.panelVisible || !HasAdditionalConstraints(r.constraints) {
        command := BuildPlainCommand(r, st, o, h);
      } else {
        command := BuildComposedCommand(r, o, h);
      }
    }

    /** The part of `build_search_command` for a search without effective constraints. */
    method BuildPlainCommand(r: Request, st: Settings, o: CaseOptions, h: Helpers) returns (command: string)
      requires record.lookInFolder == LookInFolder(r.folder)
      modifies this
      ensures Built(record, command) == BuildPlain(old(record), old(record.firstPass), r, st, o, h)
    {
      var folder := record.lookInFolder;
      var pattern := NamePattern(r.nameEntry);
      var escaped := Escaped(h, pattern);
      var disableSecondPass, quickMode := record.disableSecondPass, record.quickMode;
      command := PlainFind(folder, o.findNameOption, escaped);
      if record.firstPass {
        disableSecondPass := st.disableSecondPass;
        if !st.disableQuickSearch && st.locate.Some? && !h.isQuickSearchExcludedPath(folder) {
          command := LocateCommand(st.locate.value, o.locateOptions, folder, escaped);
          quickMode := true;
        }
      }
      record := record.(fileIsNamedPattern := pattern, disableSecondPass := disableSecondPass, quickMode := quickMode);
    }

    /** The part of `build_search_command` for a search with effective constraints. */
    method BuildComposedCommand(r: Request, o: CaseOptions, h: Helpers) returns (command: string)
      requires ValidOptions(o)
      modifies this
      ensures Built(record, command) == BuildComposed(old(record), r, o, h)
    {
      var escaped := Escaped(h, NamePattern(r.nameEntry));
      var c := ComposeConstraints(o, h, ComposedHead(record.lookInFolder, o.findNameOption, escaped), r.constraints);
      ComposedUnfolds(record, r, o, h, c);
      record := record.(regexMatchingEnabled := c.regexEnabled, regexString := c.regexString,
        showHiddenFiles := c.showHidden, fileIsNamedPattern := "*");
      command := AppendTail(c.command, c.disableMount);
    }

    /** The composed branch in terms of the loop's result. */
    static lemma ComposedUnfolds(s1: SearchStruct, r: Request, o: CaseOptions, h: Helpers, c: Composed)
      requires ValidOptions(o)
      requires c == Compose(o, h, Composed(ComposedHead(s1.lookInFolder, o.findNameOption,
        Escaped(h, NamePattern(r.nameEntry))), false, false, false, None), r.constraints)
      ensures BuildComposed(s1, r, o, h) == Built(
        s1.(regexMatchingEnabled := c.regexEnabled, regexString := c.regexString,
          showHiddenFiles := c.showHidden, fileIsNamedPattern := "*"),
        c.command + ((if c.disableMount then "" else "-xdev ") + "-print "))
    {
    }

    /** The end of a composed command: `-xdev ` unless disabled, then `-print `. */
    static method AppendTail(head: string, disableMount: bool) returns (command: string)
      ensures command == head + ((if disableMount then "" else "-xdev ") + "-print ")
    {
      command := head;
      if !disableMount {
        command := command + "-xdev ";
      }
      command := command + "-print ";
    }

    /** `spawn_search_command`, with the child's start as an outcome of the helpers. */
    method SpawnSearchCommand(command: string, h: Helpers)
      modifies this
      ensures record == SpawnResult(old(record), command, h)
    {
      var outcome := h.spawn(command);
      if outcome != Spawned {
        return;
      }
      if record.firstPass {
        record := record.(lock := true, aborted := false, running := Running, hashesLive := true,
          fileHash := {}, results := []);
      }
    }

    /** The end-of-stream branch of the stdout handler. */
    method EndOfStream(h: Helpers, r: Request, st: Settings, o: CaseOptions)
      requires ValidOptions(o)
      modifies this
      ensures record == EndOfStreamResult(old(record), h, r, st, o)
    {
      if record.running == MakeItStop {
        record := record.(aborted := true);
      }
      var s := record;
      if !s.aborted && s.quickMode && s.firstPass && !s.disableSecondPass && !h.isSecondScanExcludedPath(s.lookInFolder) {
        var command := BuildSearchCommand(false, r, st, o, h);
        SpawnSearchCommand(command, h);
      } else {
        record := record.(lock := false, running := NotRunning, notRunningTimeout := true, hashesLive := false);
      }
    }

    /**
     * One read other than quitting: a pumped stop sets the run state; a
     * line without its terminator is offered when the filter accepts it.
     */
    method TakeRead(e: Read, h: Helpers)
      requires !e.QuitRequest?
      modifies this
      ensures record == Next(old(record), h, e)
    {
      match e {
        case StopRequest =>
          record := record.(running := MakeItStop);
        case StopWhileWaiting =>
          record := record.(running := MakeItStop);
        case ReadFailed =>
        case Line(text) =>
          var line := DropLast(text);
          if Accepts(record, h, line) {
            AddFileToSearchResults(line);
          }
      }
    }

    /**
     * `handle_search_command_stdout_io` over everything the handler reads;
     * r and st are what the window and settings hold if a second pass is built.
     */
    method HandleSearchCommandStdout(events: seq<Read>, h: Helpers, r: Request, st: Settings, o: CaseOptions)
      requires ValidOptions(o)
      modifies this
      ensures record == StdoutResult(old(record), h, events, r, st, o)
    {
      var i := 0;
      var done := false;
      // A stop was pumped while the current read waits: the read completes
      // before the next turn check.
      var waiting := false;
      var ending := Finished;
      while !done
        invariant 0 <= i <= |events|
        invariant !done ==> Resume(record, h, events[i..], waiting) == Scan(old(record), h, events)
        invariant !done && waiting ==> record.running == MakeItStop
        invariant done ==> Scanned(record, ending) == Scan(old(record), h, events)
        decreases |events| - i, if done then 0 else 1
      {
        if !waiting && record.running == MakeItStop {
          done, ending := true, Finished;
        } else if !waiting && record.running != Running {
          done, ending := true, Idle;
        } else if i == |events| {
          done, ending := true, Finished;
        } else {
          var e := events[i];
          if e.QuitRequest? {
            record := record.(running := MakeItQuit);
            done, ending := true, Quit;
          } else {
            assert events[i..][1..] == events[i + 1..];
            ResumeStep(record, h, events[i..], waiting);
            TakeRead(e, h);
            if e.StopWhileWaiting? {
              waiting := true;
            } else if e.Line? || e.ReadFailed? {
              waiting := false;
            }
          }
          i := i + 1;
        }
      }
      if ending == Finished {
        EndOfStream(h, r, st, o);
      }
    }
  }
}
