# gnome-search-tool search engine, modelled in Dafny

This project models the search engine of gnome-search-tool (`gsearchtool.c`).
The graphical "Search for Files" window collects:

- a name pattern;
- a folder;
- a list of additional constraints.

The engine then works in six steps:

1. It turns these inputs into a shell command: a `locate` call for a quick first pass, or a `find` call.
2. It runs the command as a child process.
3. It filters the child's output line by line into a list of results, without duplicates.
4. When the output ends, it chooses between a thorough second `find` pass and the end of the run.
5. It collects the child's error output for a report.
6. It can serialise the current search as command-line arguments, or as the name of a saved desktop item.

The model is organised by the program's own structure:

| file | module | what it holds |
|---|---|---|
| `wrappers.dfy` | `Wrappers` | `Option`, for the C pointers that may be NULL |
| `cstrings.dfy` | `CStrings` | The C `int` and its 32-bit wrap-around, `printf` `%d`/`%u`, `sscanf` `%d`, prefix and suffix tests, `g_path_get_basename` |
| `glob.dfy` | `Glob` | The shell pattern notation of `fnmatch` (IEEE Std 1003.1, XCU section 2.13) with `FNM_NOESCAPE`, with and without `FNM_CASEFOLD`. It also holds the stricter reading of a `find -name` that keeps wildcards off a leading `.` |
| `foreign.dfy` | `Foreign` | The helpers the engine calls but that live elsewhere (`backslash_special_characters`, `escape_single_quotes`, `is_path_hidden`, the two exclusion tests, `compare_regex`, `limit_string_to_x_lines`, `g_shell_quote`, the outcome of starting the child), as fields of a `Helpers` value passed in |
| `catalog.dfy` | `Catalog` | The template table (`templates[]`) and its index enum, the probe results of `setup_case_insensitive_arguments`, the selected constraints, `has_additional_constraints`, `set_constraint_info_defaults`, `update_constraint_info` |
| `nameoptions.dfy` | `NameOptions` | `setup_find_name_options`, and what its clauses find |
| `state.dfy` | `SearchState` | The global `search_command` record and the run states the C file uses |
| `command.dfy` | `Command` | `build_search_command`, as functions over values |
| `engine.dfy` | `Engine` | The stdout handler's filter and de-duplication, the end-of-stream decision, `spawn_search_command`, and the `SearchCommand` class that performs these steps on the record in place |
| `errors.dfy` | `Errors` | The stderr handler, with its buffer kept across calls, as the `StderrHandler` class |
| `menu.dfy` | `Menu` | `set_constraint_selected_state` over the table's `is_selected` marks, as the `ConstraintMenu` class |
| `clone.dfy` | `Clone` | `set_clone_command` filling its argument array, and `get_desktop_item_name` |
| `sortby.dfy` | `SortBy` | The `--sortby`/`--descending` branch of `handle_popt_args` |

Everything the engine reads from widgets, settings or the `PATH` comes in as parameters:

- a `Request`: the entry text, the folder, whether the constraint panel is visible, the selected constraints;
- a `Settings` value: whether `locate` was found, and the two quick-search switches;
- a `CaseOptions` value: the probed option strings and the two templates they rewrite;
- a `Helpers` value: the foreign helpers.

The C code assigns the fields of `search_command` one at a time. The `SearchCommand` class keeps the record as one field of a datatype value. Each method gathers the new values of the fields it assigns and writes them back in one update. Where the C code reads a field it has just assigned (`first_pass` in `build_search_command`, `aborted` at the end of the stream), the method reads the value it gathered, which is the one C reads. Each method is proved equal to a function in `Command` or `Engine`, and the properties are proved about those functions.

`SizeBytes` corrects a 4 GiB wrap in the size constraints (see Findings), and the command builder uses it. The C product of kilobytes and 1024 leaves the `int` range from 2097152 kilobytes on, which C leaves undefined; `SizeBytesAsWritten` takes the usual 32-bit wrap-around. Under that reading the two texts agree from 0 below 4194304 kilobytes, and differ from 4194304 kilobytes on and for negative values. There the model's command is the intended one rather than what the C code prints.

## Model

| member | source | states |
|---|---|---|
| Catalog.SetupCaseInsensitiveArguments | gsearchtool.c:175-217 | `-iname`, and the caseless "not named" template, exactly when the `find` probe printed nothing (`-name` and the default template otherwise); the caseless `grep` template exactly when the `grep` probe printed nothing; `locate` options `-i` exactly when its probe printed nothing, empty otherwise |
| Catalog.KindAt | gsearchtool.c:73-125 | the kind of each template in table order; the end marker is exactly at index 19, `SEARCH_CONSTRAINT_MAXIMUM_POSSIBLE` |
| Catalog.TemplateAt | gsearchtool.c:73-94 | each row has its kind; a row has an option exactly when it is neither a separator nor the end marker; the option takes as many values as its kind supplies (text 1, number 2, date before 1, date after 2, boolean 0), with the conversion letter of that kind |
| Catalog.Templates | gsearchtool.c:73-94 | the table has 20 rows, row i being template i |
| Catalog.Printf | gsearchtool.c:457-487 | the values are written between the format's literal pieces, in order: a format without conversions is its text, one with one value is piece, value, piece, one with two values is piece, value, piece, value, piece |
| Catalog.PrintfLength | gsearchtool.c:457-487 | the formatted text is as long as the pieces and the values together |
| Catalog.HasAdditionalConstraints | gsearchtool.c:268-295 | true exactly when some selected constraint is boolean, numeric or a date, or is a text with a non-empty value; false for an empty selection |
| Catalog.SetConstraintInfoDefaults | gsearchtool.c:695-713 | a text constraint starts empty, a numeric or date one at 0, any other is unchanged; the id is kept |
| Catalog.UpdateConstraintInfo | gsearchtool.c:716-734 | a text constraint takes the entry's text; a numeric or date one takes what `%d` reads, truncated to an `int`, and is unchanged when nothing can be read; other kinds are left alone |
| Catalog.DefaultsEffective | gsearchtool.c:268-295 | a freshly added constraint counts as effective exactly when it is not a text (and not a separator) |
| Catalog.UpdateReadsDecimal | gsearchtool.c:716-734 | a numeric constraint updated with the `%d` form of an int holds that int |
| CStrings.Wrap32 | gsearchtool.c:470-473 | `gint` arithmetic: the result is congruent to the exact value modulo 2^32, and equal to it inside the `int` range |
| CStrings.AsUnsigned | gsearchtool.c:928-931 | what `%u` shows for an `int` lies below 2^32 and is congruent to it |
| CStrings.IntToDecimal | gsearchtool.c:476-488 | `%d` output is non-empty and starts with `-` exactly for a negative value |
| CStrings.ScanDecimal | gsearchtool.c:724-728 | `sscanf ("%d")` reads a negative value only from text starting with `-` after white space |
| CStrings.DecimalRoundTrip | gsearchtool.c:716-734 | what `%d` writes, `%d` reads back |
| CStrings.UnsignedRoundTrip | gsearchtool.c:2268-2272 | what `%u` writes, read back and truncated to an `int`, is the original value |
| CStrings.Basename | gsearchtool.c:1224 | a base name is non-empty, and is `/` or has no `/` |
| CStrings.BasenameOfChild | gsearchtool.c:1220-1226 | the base name of a folder ending in `/` followed by a name without `/` is that name |
| Glob.StarMatchesAll | gsearchtool.c:1226 | the pattern `*` (left by a composed search) matches every base name |
| Glob.LiteralMatchIff | gsearchtool.c:1226 | a pattern without special characters matches exactly the names equal to it, up to case when folding |
| Glob.SubstringMatches | gsearchtool.c:322-326 | the wrapped pattern `*x*` matches every name that contains x |
| Glob.Match | gsearchtool.c:1226 | `fnmatch` with `FNM_NOESCAPE`, with or without `FNM_CASEFOLD`; no contract of its own: StarMatchesAll, LiteralMatchIff and SubstringMatches state it |
| Glob.FnMatch | gsearchtool.c:1226 | the filter's call, with case folding; no contract of its own: StarMatchesAll and LiteralMatchIff state it |
| NameOptions.NameAlternatives | gsearchtool.c:228-264 | without `*`: `*f*`, then `.*f*`, then `f*` exactly when f starts with `.`; with `*`: f alone when f starts with neither `.` nor `*`; `f`, `.*f` when it starts with `.`; `f` and f without its first character when it starts with `*.`; `f`, `.f` when it starts with `*` not followed by `.` |
| NameOptions.RenderNameClause | gsearchtool.c:231-261 | one alternative gives `OPT 'p' `; several give `\( OPT 'p1' -o … \) `; the clause always ends with a space |
| NameOptions.SetupFindNameOptionsRenders | gsearchtool.c:219-266 | the command text of every branch is the rendering of the alternatives, in order |
| NameOptions.SetupFindNameOptions | gsearchtool.c:219-266 | the format strings of each branch, transcribed; no contract of its own: SetupFindNameOptionsRenders ties it to NameAlternatives and RenderNameClause, and PlainNameFindsContaining, WrappedNameFindsContaining and WrappedDotNameFinds say what it finds |
| NameOptions.PlainNameFindsContaining | gsearchtool.c:228-241 | for an argument without `*`, some alternative finds every file whose name contains it, dotfiles included, even under a `find` that keeps wildcards off leading dots. `build_search_command` never reaches this branch, because the pattern it passes always contains `*` (Command.NamePattern); a typed name goes through WrappedNameFindsContaining and WrappedDotNameFinds instead |
| NameOptions.HiddenContainingFound | gsearchtool.c:231-239 | for an argument f without `*`, `.*f*` finds a dotfile that contains f after its leading `.` |
| NameOptions.HiddenStartingFound | gsearchtool.c:236-239 | for an argument f without `*` that starts with `.`, the third alternative `f*` finds a dotfile that starts with f |
| NameOptions.WrappedNameFindsContaining | gsearchtool.c:252-262 | for an entry x not starting with `.`, wrapped as `*x*`, some alternative finds every name that contains x |
| NameOptions.WrappedDotNameFinds | gsearchtool.c:253-257 | for an entry x starting with `.`, wrapped as `*x*`, the clause finds the names that begin with x and the non-hidden names that contain it |
| NameOptions.WrappedDotNameMissesInnerHidden | gsearchtool.c:253-257 | for the entry `.c`, wrapped as `*.c*`, no alternative finds the hidden name `.a.c`: a hidden name with the entry further in is missed |
| Command.NamePattern | gsearchtool.c:312-331 | an empty entry becomes `*`; an entry with a `*` is kept; the pattern always contains `*` |
| Command.LookInFolder | gsearchtool.c:334-345 | the folder ends with `/` after normalisation, starts with the chosen folder, and is unchanged when it already ended with `/` |
| Command.NormalisationIdempotent | gsearchtool.c:312-345 | normalising the entry or the folder a second time changes nothing |
| Command.NamePatternKeepsEntry | gsearchtool.c:322-328 | a non-empty entry is either kept or wrapped as `*entry*` |
| Command.SizeBytesAsWritten | gsearchtool.c:469-475 | the size value as C prints it: `gint` kilobytes times 1024 shown with `%u`, a non-empty run of digits |
| Command.SizeBytesWrapsAt4GiB | gsearchtool.c:469-475 | 4194304 kilobytes is written as `0` bytes, where the intended value is not `0` |
| Command.SizeBytes | gsearchtool.c:469-475 | the size value as intended: its text reads back as exactly kilobytes times 1024 |
| Command.SizeBytesAgreeBelow4GiB | gsearchtool.c:469-475 | for kilobyte values from 0 below 4194304 the written and the intended text agree |
| Command.OptionOf | gsearchtool.c:416-488 | every selectable constraint has an option with as many conversions as its kind fills in |
| Command.FlagsExclusive | gsearchtool.c:416-445 | a constraint is at most one of the three markers: other filesystems, hidden files, regex |
| Command.Fragment | gsearchtool.c:416-491 | the three marker constraints and separators add nothing; a text constraint adds nothing exactly when its escaped value is empty; anything added ends with a space |
| Command.FragmentSize | gsearchtool.c:469-475 | a size constraint adds `\( -size Bc -o -size +Bc \) ` (larger than) or `\( -size Bc -o -size -Bc \) ` (smaller than), B the size in bytes |
| Command.SizePieces | gsearchtool.c:78-79 | the two size templates differ only in the sign before the second size |
| Command.FragmentTwoValues | gsearchtool.c:469-487 | a size or "date after" template gets the same value in both its conversions |
| Command.FragmentTimeMore | gsearchtool.c:482-487 | "date modified more than" adds `\( -mtime +D -o -mtime D \) ` with D the days written by `%d` |
| Command.FragmentTimeLess | gsearchtool.c:476-480 | "date modified less than" adds `-mtime -D ` |
| Command.FragmentText | gsearchtool.c:446-467 | a non-regex text constraint with a non-empty escaped value adds its template's first piece, the escaped value, its last piece and a space |
| Command.FragmentOwner | gsearchtool.c:446-467 | the owner constraints add `-user 'E' ` and `-group 'E' ` with E the escaped value |
| Command.FragmentBool | gsearchtool.c:417-427 | a boolean constraint other than the three markers adds its template's text and a space |
| Command.FragmentFollowAndEmpty | gsearchtool.c:417-427 | "follow symbolic links" adds `-follow ` and "empty" adds `-size 0c \( -type f -o -type d \) ` |
| Command.ComposeCommand | gsearchtool.c:412-492 | the constraint loop appends the fragments of the selection in list order |
| Command.Compose | gsearchtool.c:412-492 | the constraint loop as a fold over the selection; no contract of its own: ComposeCommand, ComposeFlag and ComposeRegexString state it, and Engine.ComposeConstraints is the loop proved equal to it |
| Command.ComposeFlag | gsearchtool.c:412-445 | each marker flag ends up set exactly when some selected constraint carries it |
| Command.ComposeRegexString | gsearchtool.c:429-445 | the regex kept is that of the last regex constraint, or the earlier value when there is none |
| Command.LastRegexIsLast | gsearchtool.c:429-445 | the last regex found exists exactly when some constraint is a regex; it is the escaped text of one, and no regex constraint follows that one |
| Command.BuildKeepsRunState | gsearchtool.c:297-508 | after any build the folder is the normalised one ending in `/`, the pass is the one asked for, the pattern contains `*`, and the run state, lock, hashes and rows are untouched |
| Command.BuildSearchCommand | gsearchtool.c:297-508 | `build_search_command`; no contract of its own: BuildKeepsRunState, PlainBuild and ComposedBuild state it |
| Command.BuildPlain | gsearchtool.c:354-398 | the branch without effective constraints; no contract of its own: PlainBuild and PlainKeepsRunState state it |
| Command.BuildComposed | gsearchtool.c:400-500 | the branch with effective constraints; no contract of its own: ComposedBuild, ComposedResult and EndsWithPrint state it |
| Command.PlainKeepsRunState | gsearchtool.c:358-398 | the branch without constraints keeps the folder, the pass and the run state, and sets the pattern to the normalised entry |
| Command.PlainBuild | gsearchtool.c:354-398 | without effective constraints, or with the panel hidden: on a first pass the command is `LOCATE OPTS 'ROOT*PAT'`, and quick mode is set, exactly when quick search is enabled, `locate` is found and the folder is not quick-excluded. Every other case, the whole second pass included, gives `find "ROOT" OPT 'PAT' -xdev -print`. The second-pass switch is read on a first pass, hidden files are off, the regex is cleared, and the regex flag keeps its earlier value |
| Command.ComposedBuild | gsearchtool.c:400-500 | with effective constraints the command is the name clause, the fragments in list order, `-xdev ` unless other filesystems are asked for, and `-print `. The filter pattern is `*`; hidden files are shown exactly when asked; the regex flag is set exactly when a regex constraint is selected, with the last one's text; quick mode is off on a first pass |
| Command.ComposedResult | gsearchtool.c:400-500 | the same for the record as the build starts it, with every other field unchanged |
| Command.EndsWithPrint | gsearchtool.c:495-499 | any head followed by the tail (`-xdev ` unless other filesystems are asked for, then `-print `) ends with `-print `; ComposedBuild applies it to the composed command |
| Command.EmptyRegexStillFilters | gsearchtool.c:268-295 | a regex constraint with empty text is not effective alone, yet next to an effective constraint it turns regex matching on, with the empty text as the regex |
| Command.FlagsComeFromTheirEntries | gsearchtool.c:416-445 | with the probed templates, exactly the entries 18, 16 and 14 of the table set the other-filesystems, hidden-files and regex flags |
| Engine.DropLast | gsearchtool.c:1210 | the line loses its last character (nothing when empty) and is otherwise a prefix of the line as read |
| Engine.Accepts | gsearchtool.c:1210-1245 | the line filter (length, folder prefix, pattern, hidden and backup, regex); no contract of its own: NextGrows, ScanFindsAccepted and AcceptsSameFilter state what it lets through |
| Engine.Consider | gsearchtool.c:1210-1245 | one line through the filter and `add_file_to_search_results`; no contract of its own: NextGrows, NextAddsItsLine and NextKeepsConsistent state it |
| Engine.Offer | gsearchtool.c:523-527 | the path is afterwards in the seen set; a path already seen changes nothing; a new one is added to the seen set and gets one row; nothing else changes; consistency of rows and seen set is kept |
| Engine.OfferIdempotent | gsearchtool.c:523-527 | offering the same path twice is offering it once |
| Engine.Next | gsearchtool.c:1164-1245 | a read changes only the run state, the seen set and the rows; a stop request, pumped at the refresh or during a wait for data, changes the run state to `MAKE_IT_STOP`, and nothing else does |
| Engine.NextAddsItsLine | gsearchtool.c:1210-1245 | a row a read adds is the path of the line it read |
| Engine.NextGrows | gsearchtool.c:1210-1245 | after one read the seen set and the rows only grow, and every new row passed the filter (length, folder prefix, pattern, hidden and backup, regex) and was not seen before |
| Engine.NextKeepsConsistent | gsearchtool.c:1210-1245 | a read keeps the rows free of repeats and equal to the seen set |
| Engine.Scan | gsearchtool.c:1164-1273 | the read loop; no contract of its own: ScanGrows, ScanKeepsConsistent, ScanFindsAccepted, StopEndsScan, WaitingStopEndsScan, ScanStopEnding, ScanAppend and RereadAddsNothing state it |
| Engine.CompleteRead | gsearchtool.c:1177-1245 | the rest of a read during whose wait a stop was pumped; no contract of its own: CompleteReadGrows, CompleteReadKeepsConsistent, CompleteReadStopEnding and WaitingStopLetsLineThrough state it |
| Engine.ScanGrows | gsearchtool.c:1164-1273 | the whole read loop only appends new accepted paths, each the path of a line among the reads, and keeps every other field |
| Engine.ScanAppendsAccepted | gsearchtool.c:1164-1273 | the read loop only appends new accepted paths and keeps every other field |
| Engine.ScanRowsRead | gsearchtool.c:1164-1273 | every row the read loop adds is the path of one of the lines read |
| Engine.CompleteReadGrows | gsearchtool.c:1177-1245 | finishing a read that waited for data appends only new accepted paths of lines among the reads |
| Engine.CompleteReadKeepsConsistent | gsearchtool.c:1177-1245 | finishing a read that waited keeps the rows free of repeats and equal to the seen set |
| Engine.RereadAddsNothing | gsearchtool.c:1210-1245 | reading the same lines a second time leaves the seen set and the rows as one reading left them |
| Engine.ScanAppend | gsearchtool.c:1164-1273 | with no requests among the first reads, the loop stays running over them and reading two runs of lines is reading the second from where the first left the record |
| Engine.ScanAddsNothing | gsearchtool.c:1210-1245 | lines whose accepted paths are all seen leave the record as it was |
| Engine.ScanKeepsConsistent | gsearchtool.c:1164-1273 | the read loop keeps the rows free of repeats and equal to the seen set |
| Engine.ScanFindsAccepted | gsearchtool.c:1164-1245 | without stop or quit requests a running loop reaches the end of the stream, and every line the filter accepts is then among the seen paths |
| Engine.StopEndsScan | gsearchtool.c:1169-1171 | nothing read after a stop pumped at the refresh (gsearchtool.c:1258-1271) affects the loop, when no earlier stop came during a wait |
| Engine.WaitingStopEndsScan | gsearchtool.c:1177-1196 | after a stop pumped while waiting for data, the read under way is completed and nothing read after it affects the loop |
| Engine.StopPlacesDiffer | gsearchtool.c:1177-1271 | a new accepted line read after a stop pumped during the wait for it is listed; the same line after a stop pumped at the refresh is not |
| Engine.WaitingStopLetsLineThrough | gsearchtool.c:1177-1245 | a stop pumped during the wait lets the line being read reach the rows, and the loop then ends |
| Engine.RefreshStopDropsLine | gsearchtool.c:1169-1171 | a stop pumped at the refresh ends the loop before the next line, which adds no row |
| Engine.ScanStopEnding | gsearchtool.c:1169-1171 | a loop that leaves a stop pending ended as at the end of the stream |
| Engine.CompleteReadStopEnding | gsearchtool.c:1177-1201 | a read finished after a stop during the wait ends the loop as at the end of the stream |
| Engine.StopAbortsRun | gsearchtool.c:1279-1306 | a stop seen by the handler ends the run aborted, not running, unlocked, with the hashes gone |
| Engine.SecondPassDue | gsearchtool.c:1287-1291 | the condition for the second pass; no contract of its own: AtMostOneSecondPass and StopAbortsRun state when it holds |
| Engine.EndOfStreamResult | gsearchtool.c:1279-1306 | the end-of-stream branch; no contract of its own: StopAbortsRun, AtMostOneSecondPass and SecondPassKeepsSeen state it |
| Engine.StdoutResult | gsearchtool.c:1139-1328 | one invocation of the stdout handler; no contract of its own: StdoutKeepsConsistent and StopAbortsRun state it, and SearchCommand.HandleSearchCommandStdout is proved equal to it |
| Engine.AtMostOneSecondPass | gsearchtool.c:1287-1299 | the second pass is built as a later pass, and the end of its stream finishes the run (not running, unlocked): at most one second pass |
| Engine.SecondPassKeepsSeen | gsearchtool.c:1287-1299 | starting the second pass keeps the seen set and rows of the first, so a path both passes find is listed once |
| Engine.FailedSecondPassStaysRunning | gsearchtool.c:1490-1543 | when the second pass cannot be started, the run stays running and the lock is kept |
| Engine.SpawnResult | gsearchtool.c:1545-1553 | the record after `spawn_search_command`; no contract of its own: SpawnStartsRun, SpawnKeepsConsistent and FailedSecondPassStaysRunning state it |
| Engine.SpawnStartsRun | gsearchtool.c:1545-1553 | a failed start changes nothing; a started first pass is running, locked, not aborted, with an empty seen set and no rows |
| Engine.SpawnKeepsConsistent | gsearchtool.c:1545-1553 | starting a run keeps the rows consistent with the seen set |
| Engine.StdoutKeepsConsistent | gsearchtool.c:1139-1328 | a whole invocation of the stdout handler, end of stream included, keeps the rows consistent with the seen set |
| Engine.ComposeConstraints | gsearchtool.c:412-492 | the loop over the selection computes the constraint composition of its specification |
| Engine.ApplyConstraint | gsearchtool.c:416-491 | one turn of the loop: a marker sets its flag, the regex records its text, every other constraint appends its fragment |
| Engine.SearchCommand.constructor | gsearchtool.c:61 | the zero-initialised global record: not running, empty strings, no rows |
| Engine.SearchCommand.AddFileToSearchResults | gsearchtool.c:511-527 | the record afterwards is the offer of the path to the old record |
| Engine.SearchCommand.BuildSearchCommand | gsearchtool.c:297-508 | the command returned and the record left are those of the build specification |
| Engine.SearchCommand.BuildPlainCommand | gsearchtool.c:358-398 | the plain branch, in place, equals its specification |
| Engine.SearchCommand.BuildComposedCommand | gsearchtool.c:400-500 | the composed branch, in place, equals its specification |
| Engine.SearchCommand.AppendTail | gsearchtool.c:495-499 | the head followed by `-xdev ` unless disabled, then `-print ` |
| Engine.SearchCommand.SpawnSearchCommand | gsearchtool.c:1479-1609 | the record afterwards is that of the spawn specification |
| Engine.SearchCommand.EndOfStream | gsearchtool.c:1279-1306 | the record afterwards is that of the end-of-stream specification: a pending stop aborts; then either the second pass is built and started or the run is finished |
| Engine.SearchCommand.TakeRead | gsearchtool.c:1177-1245 | one read applied in place: the record afterwards is that of the read specification |
| Engine.SearchCommand.HandleSearchCommandStdout | gsearchtool.c:1139-1328 | the record afterwards is that of the handler specification over the reads |
| Errors.Absorb | gsearchtool.c:1390-1399 | once the buffer is cut, or for a line the deny list drops, the buffer is unchanged |
| Errors.KeepsError | gsearchtool.c:1391-1394 | the deny list of the stderr filter; no contract of its own: DroppedLinesLeaveBuffer and FindPrefixKeptWithTerminator state it |
| Errors.AbsorbAll | gsearchtool.c:1336-1399 | the lines of one or more invocations absorbed in order; no contract of its own: AbsorbAllSplits and TruncatedKeepsBuffer state it |
| Errors.Report | gsearchtool.c:1407-1420 | a report exists exactly when errors were kept; it carries the "too many errors" note exactly when the buffer was cut, and offers disabling quick search exactly for a quick-mode run |
| Errors.AbsorbAllSplits | gsearchtool.c:1336-1337 | reading lines over two invocations is reading them in one, as the buffer persists between calls |
| Errors.TruncatedKeepsBuffer | gsearchtool.c:1390 | once cut, no later line changes the buffer |
| Errors.DroppedLinesLeaveBuffer | gsearchtool.c:1391-1394 | lines about denied permissions, missing files, `grep: ` lines and `find: ` never reach the buffer |
| Errors.FindPrefixKeptWithTerminator | gsearchtool.c:1394 | `find: ` is compared with the line as read, terminator included, so `find: ` followed by a newline is kept |
| Errors.StderrHandler.constructor | gsearchtool.c:1336-1337 | no errors kept, not cut |
| Errors.StderrHandler.HandleSearchCommandStderr | gsearchtool.c:1331-1476 | the buffer afterwards is the old one with the lines absorbed; at the end of the stream the report of that buffer is produced and the buffer reset (`1469-1470`) |
| Menu.FirstUnselected | gsearchtool.c:744-752 | the first unmarked template before the end marker, with every earlier one marked; none exactly when all are marked |
| Menu.ActiveIsNeverSeparator | gsearchtool.c:744-752 | the menu never shows a separator or the end marker |
| Menu.AddedIsNotOffered | gsearchtool.c:742-752 | a constraint just marked is not the one offered next |
| Menu.AllAddedDisablesMenu | gsearchtool.c:744-755 | nothing is offered exactly when every template is marked |
| Menu.MarkingKeepsSeparators | gsearchtool.c:742 | marking keeps every separator marked, unless a separator itself is unmarked |
| Menu.ConstraintMenu.constructor | gsearchtool.c:73-94 | the marks as written in the table: exactly the separators are marked |
| Menu.ConstraintMenu.SetConstraintSelectedState | gsearchtool.c:736-756 | the mark is set; the menu shows the first unmarked template and is sensitive, or keeps its entry and is insensitive when there is none |
| Clone.CloneFlag | gsearchtool.c:2252-2327 | every selectable constraint has a flag, separators none |
| Clone.CloneArgs | gsearchtool.c:2221-2247 | at least three arguments, the program name first |
| Clone.CloneFlags | gsearchtool.c:2247-2330 | the flags of the selection in list order; no contract of its own: FlaggedIdsMatchFlags and DistinctConstraintsFit state it, and AppendCloneFlags writes it |
| Clone.DistinctConstraintsFit | gsearchtool.c:2219 | with each constraint selected at most once, the arguments fit the 19 slots allocated |
| Clone.FlaggedIdsMatchFlags | gsearchtool.c:2248-2329 | there are as many flags as non-separator constraints; their ids come from the selection, and they are distinct when the selection has no repeated id |
| Clone.SetCloneCommand | gsearchtool.c:2208-2333 | the first `argc` slots hold the arguments in order, the remaining slots stay NULL |
| Clone.AppendCloneFlags | gsearchtool.c:2247-2330 | the flags of the selection are written in list order from the next slot on, nothing else changes |
| Clone.DesktopParam | gsearchtool.c:916-966 | every selectable constraint has a parameter, separators none |
| Clone.DesktopParams | gsearchtool.c:911-969 | the parameters of the selection in list order; no contract of its own: DesktopItemName and DesktopParamIsCloneFlag state it, and AppendDesktopParams builds it |
| Clone.DesktopItemName | gsearchtool.c:884-972 | `Search for Files (named=E&path=F`, then the parameters, then `)` |
| Clone.DesktopParamIsCloneFlag | gsearchtool.c:916-966 | a constraint's desktop parameter is its unescaped clone flag with `&` in place of `--` |
| Clone.GetDesktopItemName | gsearchtool.c:884-972 | the name built step by step equals its specification |
| Clone.AppendDesktopParams | gsearchtool.c:911-969 | the parameters of the selection are appended in list order |
| SortBy.ArgumentName | gsearchtool.c:1102-1115 | each column has one of the five command-line names |
| SortBy.SortColumn | gsearchtool.c:1102-1120 | no warning exactly for one of the five names, which then selects the column of that name; anything else warns and selects the name column |
| SortBy.HandleSortby | gsearchtool.c:1099-1130 | a sort is set exactly when `--sortby` is given, descending exactly when `--descending` is also given, with the column and warning above |
| SortBy.ColumnRoundTrip | gsearchtool.c:1102-1115 | every column is reached by its own name, without a warning |
| SortBy.ArgumentNameInjective | gsearchtool.c:1102-1115 | distinct columns have distinct names |

## Left out

- Widget and presentation code:
  - window construction;
  - icons;
  - the row columns `add_file_to_search_results` fills after recording the path (mime type, size, date, pixbuf caches);
  - `update_search_counts`, the animation, the scroll hack;
  - the dialogs built from an error report.

  These are GTK presentation, and the error dialogs and the `disable_quick_search_cb` answer are shown only as the `ErrorReport` value.
- Process and stream plumbing:
  - `g_shell_parse_argv` and `g_spawn_async_with_pipes` are a `SpawnOutcome` from the helpers;
  - the reads are a sequence of events (`Read`): a line, a failed read, or a request pumped from the main loop;
  - the non-blocking retries, the refresh timer and the busy-wait are not modelled as such.

  A stop request is tagged with where it was pumped: at the refresh after a line (seen before the next read), or while a read waits for data (the read under way is completed first). A quit request is modelled as ending the handler at once. In the C code the `MAKE_IT_QUIT` test comes before each `gtk_main_iteration` (gsearchtool.c:1186-1190, 1263-1267), so a quit that is the last pending event is not seen there. The read under way then completes, its line is filtered, the loop ends at the turn check (1173-1174), and with a hang-up condition the end-of-stream branch from 1279 runs. That path is not modelled.
- The end of a stdout invocation: the end of the given reads is the end of the stream. Not distinguished:
  - an invocation that returns with data still to come;
  - the hang-up condition when the loop ends because the record is no longer running (which the source then also treats as the end of the stream).
- Locale and UTF-8 conversion is the identity, so the skip of a line that fails to convert is not modelled. Message strings are the English originals.
- `setup_case_insensitive_arguments`: the probes' standard error is given as a `Probe` value. Its run-once guard is not modelled.
- gconf settings are values of `Settings`: the quick-search switches, the date format and the click policy. The fields `date_format_pref`, `single_click_to_activate` and `pixbuf_hash` are not kept.
- Freeing the string fields of the record on spawn failure and at the end of a run is memory management, and is not modelled.
- `fnmatch` covers `*`, `?`, bracket expressions with ranges, and ASCII case folding. It does not cover character classes such as `[:alpha:]` or locale collation.
- CStrings.ScanDecimal: a decimal too large for an `int` is truncated to 32 bits, where C leaves the overflow undefined.
- Command.Fragment: from 4194304 kilobytes on (and for negative values) a size constraint adds the corrected byte count of `SizeBytes`, not the text the C code prints (see Findings).
- Command.SizeBytes: a negative kilobyte value is printed as a signed byte count. Such a value can only come from a command-line argument, and the source prints its unsigned 32-bit wrap instead.
- Clone.DistinctConstraintsFit: that the selection holds each constraint at most once is assumed, not derived. `add_constraint` (gsearchtool.c:1722-1752) appends without checking; the property comes from the menu making a selected entry insensitive (gsearchtool.c:1771), and the menu model in `Menu` is not tied to the selection list.
- Sorting the result list itself is not modelled (`gtk_tree_sortable_set_sort_column_id`); `SortBy.HandleSortby` yields the column and order handed to it. The other branches of `handle_popt_args` only call `add_constraint` and the find button, and are not modelled.
- `outdlg.c` is dialog plumbing, and `gsearchtool.h` only declares types; neither is part of this model.

## Findings

| source | as written | input that shows it | evidently intended | confidence | as-written member | corrected member |
|---|---|---|---|---|---|---|
| gsearchtool.c:469-475 | the size in kilobytes times 1024 is computed as a 32-bit `gint` and printed with `%u` | a size constraint of 4194304 kilobytes (the spin button allows up to 999999999) gives `\( -size 0c -o -size +0c \)` | the size in bytes, 4294967296 | not executed | Command.SizeBytesAsWritten, Command.SizeBytesWrapsAt4GiB | Command.SizeBytes, Command.SizeBytesAgreeBelow4GiB |
