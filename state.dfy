/**
 * The global `search_command` record the engine keeps between the
 * command builder, the spawner and the two stream handlers, together with
 * the rows of the result list.
 */
module SearchState {
  import opened Wrappers

  /**
   * The run states the engine uses. `NotRunning` is written at the end of
   * a run; it is the state before the first run too.
   */
  datatype Status = NotRunning | Running | MakeItStop | MakeItQuit

  datatype SearchStruct = SearchStruct(
    lookInFolder: string,
    /** The pattern result base names are checked against; "*" after a composed search. */
    fileIsNamedPattern: string,
    regexString: Option<string>,
    showHiddenFiles: bool,
    regexMatchingEnabled: bool,
    quickMode: bool,
    firstPass: bool,
    disableSecondPass: bool,
    running: Status,
    aborted: bool,
    lock: bool,
    notRunningTimeout: bool,
    /** Whether `file_hash` exists (created at the start of a run, destroyed at its end). */
    hashesLive: bool,
    /** The paths of `file_hash`. */
    fileHash: set<string>,
    /** The paths of the rows of the result list, in the order they were added. */
    results: seq<string>)

  /** No path is listed twice, and the seen set is exactly the listed paths. */
  ghost predicate ResultsConsistent(s: SearchStruct) {
    (forall i, j :: 0 <= i < j < |s.results| ==> s.results[i] != s.results[j])
    && (forall p :: p in s.fileHash <==> p in s.results)
  }
}
