/**
 * The helpers the search engine calls but that live outside the modelled
 * file (`gsearchtool-support.c`, GLib, libc). Each is a total function
 * supplied by the caller; nothing is assumed about what it computes.
 */
module Foreign {
  import opened Wrappers

  /** What `spawn_search_command` gets from `g_shell_parse_argv` and `g_spawn_async_with_pipes`. */
  datatype SpawnOutcome = ParseFailed | SpawnFailed | Spawned

  datatype Helpers = Helpers(
    /** `backslash_special_characters`. */
    backslashSpecialCharacters: string -> string,
    /** `escape_single_quotes`. */
    escapeSingleQuotes: string -> string,
    /** `is_quick_search_excluded_path`. */
    isQuickSearchExcludedPath: string -> bool,
    /** `is_second_scan_excluded_path`. */
    isSecondScanExcludedPath: string -> bool,
    /** `is_path_hidden`. */
    isPathHidden: string -> bool,
    /** `compare_regex (regex, name)`; the regex may be NULL. */
    compareRegex: (Option<string>, string) -> bool,
    /**
     * `limit_string_to_x_lines (buffer, x)`: the buffer as it is left and
     * whether it had to be cut to x lines.
     */
    limitStringToXLines: (string, nat) -> (string, bool),
    /** `g_shell_quote`. */
    shellQuote: string -> string,
    /** Whether the command line could be parsed and the child started. */
    spawn: string -> SpawnOutcome)

  /** The escaping every value gets before it is put between single quotes. */
  function Escaped(h: Helpers, s: string): string {
    h.escapeSingleQuotes(h.backslashSpecialCharacters(s))
  }
}
