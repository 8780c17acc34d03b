/**
 * `build_search_command`, as a specification over values: the name
 * pattern and folder normalisation, the three command shapes (`locate`,
 * a plain `find`, a constraint-composed `find`), and the facts the
 * command leaves in the search record for the result filter.
 */
module Command {
  import opened Wrappers
  import opened CStrings
  import opened Catalog
  import opened NameOptions
  import opened Foreign
  import opened SearchState

  /** What the builder reads from the window. */
  datatype Request = Request(
    /** The text of the "Name contains" entry. */
    nameEntry: string,
    /** The current folder of the folder chooser. */
    folder: string,
    /** Whether the additional-constraints panel is shown. */
    panelVisible: bool,
    /** The selected constraints, in list order. */
    constraints: seq<Constraint>)

  /** What the builder reads from the settings and the program path. */
  datatype Settings = Settings(
    /** `g_find_program_in_path ("locate")`. */
    locate: Option<string>,
    disableQuickSearch: bool,
    disableSecondPass: bool)

  /**
   * The pattern searched for: "*" for an empty entry, the entry wrapped in
   * `*` when it has none, the entry itself otherwise.
   */
  function NamePattern(entry: string): (p: string)
    ensures '*' in p
    ensures entry == [] ==> p == "*"
    ensures '*' in entry ==> p == entry
  {
    if entry == [] then "*"
    else if '*' !in entry then
      var p := "*" + entry + "*";
      assert p[0] == '*';
      p
    else entry
  }

  /** The folder, with a trailing separator added when it has none. */
  function LookInFolder(folder: string): (r: string)
    ensures EndsWith(r, "/") && StartsWith(r, folder)
    ensures EndsWith(folder, "/") ==> r == folder
    ensures |r| <= |folder| + 1
  {
    if EndsWith(folder, "/") then folder
    else
      var r := folder + "/";
      assert r[..|folder|] == folder;
      assert r[|r| - 1..] == "/";
      r
  }

  /** A second normalisation changes nothing. */
  lemma NormalisationIdempotent(entry: string, folder: string)
    ensures NamePattern(NamePattern(entry)) == NamePattern(entry)
    ensures LookInFolder(LookInFolder(folder)) == LookInFolder(folder)
  {
  }

  /** A non-empty entry is part of the pattern searched for. */
  lemma NamePatternKeepsEntry(entry: string)
    requires entry != []
    ensures NamePattern(entry) == entry || NamePattern(entry) == "*" + entry + "*"
  {
  }

  /** The size in bytes of a size value in kilobytes, as the command intends it. */
  function SizeBytes(kb: Int32): (s: string)
    ensures ScanDecimal(s).Some? && ScanDecimal(s).value == kb as int * 1024
  {
    DecimalRoundTrip(kb as int * 1024);
    IntToDecimal(kb as int * 1024)
  }

  /** The same value as the source computes it: `gint` multiplication printed with `%u`. */
  function SizeBytesAsWritten(kb: Int32): (s: string)
    ensures s != [] && AllDigits(s)
  {
    UnsignedDecimal(Wrap32(kb as int * 1024))
  }

  /** For values below 4 GiB the two agree. */
  lemma SizeBytesAgreeBelow4GiB(kb: Int32)
    requires 0 <= kb < 4194304
    ensures SizeBytesAsWritten(kb) == SizeBytes(kb)
  {
    var x := kb as int * 1024;
    if x < TwoTo31 {
      assert Wrap32(x) == x;
    } else {
      assert x % TwoTo32 == x;
      assert Wrap32(x) == x - TwoTo32;
      assert AsUnsigned(Wrap32(x)) == x;
    }
  }

  /** 4194304 kilobytes (4 GiB), which the size field accepts, is written as 0 bytes. */
  lemma SizeBytesWrapsAt4GiB()
    ensures SizeBytesAsWritten(4194304) == "0"
    ensures SizeBytes(4194304) != "0"
  {
    var x := 4194304 * 1024;
    assert x % TwoTo32 == 0;
    assert Wrap32(x) == 0;
    assert AsUnsigned(0) == 0;
    assert NatToDecimal(0) == "0";
    var d := NatToDecimal(x);
    assert d == NatToDecimal(x / 10) + [DigitChar(x % 10)];
    assert |d| >= 2;
  }

  /** The template option of a constraint; every selectable constraint has one. */
  function OptionOf(o: CaseOptions, c: Constraint): (f: Format)
    requires ValidOptions(o) && KindOf(c.id) != Separator
    ensures WellFormed(f) && Arity(f) == KindArity(KindOf(c.id))
    ensures KindArity(KindOf(c.id)) > 0 ==> f.conv == KindConversion(KindOf(c.id))
  {
    TemplateAt(o, c.id).option.value
  }

  /** The constraints that set a flag of the search instead of adding to the command. */
  datatype Flag = OtherFilesystems | ShowHidden | Regex

  predicate HasFlag(o: CaseOptions, c: Constraint, fl: Flag)
    requires ValidOptions(o)
  {
    match fl
    case OtherFilesystems => KindOf(c.id) == Bool && OptionOf(o, c) == OtherFilesystemsFormat
    case ShowHidden => KindOf(c.id) == Bool && OptionOf(o, c) == ShowHiddenFormat
    case Regex => KindOf(c.id) == Text && OptionOf(o, c) == RegexFormat
  }

  /** A constraint sets at most one flag. */
  lemma FlagsExclusive(o: CaseOptions, c: Constraint)
    requires ValidOptions(o)
    ensures !(HasFlag(o, c, OtherFilesystems) && HasFlag(o, c, ShowHidden))
    ensures !(HasFlag(o, c, Regex) && (HasFlag(o, c, OtherFilesystems) || HasFlag(o, c, ShowHidden)))
  {
    assert OtherFilesystemsFormat.pieces[0][0] != ShowHiddenFormat.pieces[0][0];
  }

  predicate AnyFlag(o: CaseOptions, cs: seq<Constraint>, fl: Flag)
    requires ValidOptions(o)
  {
    exists i :: 0 <= i < |cs| && HasFlag(o, cs[i], fl)
  }

  /**
   * What one constraint adds to the command: its option with the value
   * substituted and a space; nothing for the three flag constraints and for
   * a text whose escaped value is empty.
   */
  function Fragment(o: CaseOptions, h: Helpers, c: Constraint): (r: string)
    requires ValidOptions(o)
    ensures HasFlag(o, c, OtherFilesystems) || HasFlag(o, c, ShowHidden) || HasFlag(o, c, Regex) ==> r == []
    ensures KindOf(c.id) == Separator ==> r == []
    ensures KindOf(c.id) == Text && !HasFlag(o, c, Regex) ==> (r == [] <==> Escaped(h, c.text) == [])
    ensures r != [] ==> EndsWith(r, " ")
  {
    var k := KindOf(c.id);
    if k == Bool then
      var f := OptionOf(o, c);
      if f == OtherFilesystemsFormat || f == ShowHiddenFormat then ""
      else Printf(f, []) + " "
    else if k == Text then
      var f := OptionOf(o, c);
      if f == RegexFormat then ""
      else
        var e := Escaped(h, c.text);
        if e == [] then "" else Printf(f, [e]) + " "
    else if k == Number then
      var b := SizeBytes(c.value);
      Printf(OptionOf(o, c), [b, b]) + " "
    else if k == TimeLess then
      Printf(OptionOf(o, c), [IntToDecimal(c.value)]) + " "
    else if k == TimeMore then
      var d := IntToDecimal(c.value);
      Printf(OptionOf(o, c), [d, d]) + " "
    else ""
  }

  /**
   * A size constraint tests the size twice with the same byte count,
   * kilobytes times 1024: once exactly, once with `+` for "at least" and
   * `-` for "at most".
   */
  lemma FragmentSize(o: CaseOptions, h: Helpers, c: Constraint)
    requires ValidOptions(o) && (c.id == SizeIsMoreThan || c.id == SizeIsLessThan)
    ensures var b := SizeBytes(c.value);
      var sign := if c.id == SizeIsMoreThan then "+" else "-";
      Fragment(o, h, c) == "\\( -size " + b + "c -o -size " + sign + b + "c \\) "
  {
    var b := SizeBytes(c.value);
    var sign := if c.id == SizeIsMoreThan then "+" else "-";
    FragmentTwoValues(o, h, c, b);
    SizePieces(o, c);
    SizeShape(b, sign);
  }

  /** The two size templates differ only in the sign of the second test. */
  lemma SizePieces(o: CaseOptions, c: Constraint)
    requires ValidOptions(o) && (c.id == SizeIsMoreThan || c.id == SizeIsLessThan)
    ensures OptionOf(o, c).pieces
      == ["\\( -size ", "c -o -size " + (if c.id == SizeIsMoreThan then "+" else "-"), "c \\)"]
  {
    if c.id == SizeIsMoreThan {
      assert "c -o -size +" == "c -o -size " + "+";
    } else {
      assert "c -o -size -" == "c -o -size " + "-";
    }
  }

  lemma SizeShape(b: string, sign: string)
    ensures "\\( -size " + b + ("c -o -size " + sign) + b + "c \\)" + " "
      == "\\( -size " + b + "c -o -size " + sign + b + "c \\) "
  {
    var x := "\\( -size " + b;
    var y := x + "c -o -size " + sign + b;
    Associative(x, "c -o -size ", sign);
    Associative(y, "c \\)", " ");
  }

  /** A size or "more than" date constraint writes its value twice into its option. */
  lemma FragmentTwoValues(o: CaseOptions, h: Helpers, c: Constraint, v: string)
    requires ValidOptions(o)
    requires (KindOf(c.id) == Number && v == SizeBytes(c.value)) || (KindOf(c.id) == TimeMore && v == IntToDecimal(c.value))
    ensures var f := OptionOf(o, c);
      Fragment(o, h, c) == f.pieces[0] + v + f.pieces[1] + v + f.pieces[2] + " "
  {
    assert Fragment(o, h, c) == Printf(OptionOf(o, c), [v, v]) + " ";
  }

  /** "Modified more than d days ago" tests `+d` or exactly d, the day count written twice. */
  lemma FragmentTimeMore(o: CaseOptions, h: Helpers, c: Constraint)
    requires ValidOptions(o) && c.id == DateModifiedAfter
    ensures var d := IntToDecimal(c.value);
      Fragment(o, h, c) == "\\( -mtime +" + d + " -o -mtime " + d + " \\) "
  {
    var d := IntToDecimal(c.value);
    assert OptionOf(o, c) == MtimeMoreFormat;
    FragmentTwoValues(o, h, c, d);
    Associative("\\( -mtime +" + d + " -o -mtime " + d, " \\)", " ");
  }

  /** "Modified less than d days ago" tests `-d`. */
  lemma FragmentTimeLess(o: CaseOptions, h: Helpers, c: Constraint)
    requires ValidOptions(o) && c.id == DateModifiedBefore
    ensures Fragment(o, h, c) == "-mtime -" + IntToDecimal(c.value) + " "
  {
    assert "-mtime -" + IntToDecimal(c.value) + "" == "-mtime -" + IntToDecimal(c.value);
  }

  /**
   * A text constraint other than the regex, with a non-empty escaped
   * value, writes that value into its template.
   */
  lemma FragmentText(o: CaseOptions, h: Helpers, c: Constraint)
    requires ValidOptions(o) && KindOf(c.id) == Text && !HasFlag(o, c, Regex) && Escaped(h, c.text) != []
    ensures var f := OptionOf(o, c);
      Fragment(o, h, c) == f.pieces[0] + Escaped(h, c.text) + f.pieces[1] + " "
  {
    var f := OptionOf(o, c);
    var e := Escaped(h, c.text);
    assert f != RegexFormat;
    assert Fragment(o, h, c) == Printf(f, [e]) + " ";
  }

  /** The owner tests write the name into `-user '%s'` and `-group '%s'`. */
  lemma FragmentOwner(o: CaseOptions, h: Helpers, c: Constraint)
    requires ValidOptions(o) && (c.id == OwnedByUser || c.id == OwnedByGroup) && Escaped(h, c.text) != []
    ensures Fragment(o, h, c)
      == (if c.id == OwnedByUser then "-user '" else "-group '") + Escaped(h, c.text) + "' "
  {
    var e := Escaped(h, c.text);
    FragmentText(o, h, c);
    var head := if c.id == OwnedByUser then "-user '" else "-group '";
    OwnerPieces(o, c);
    QuoteSpace(Fragment(o, h, c), head, e);
  }

  lemma QuoteSpace(x: string, head: string, e: string)
    requires x == head + e + "'" + " "
    ensures x == head + e + "' "
  {
    Associative(head + e, "'", " ");
  }

  lemma OwnerPieces(o: CaseOptions, c: Constraint)
    requires ValidOptions(o) && (c.id == OwnedByUser || c.id == OwnedByGroup)
    ensures OptionOf(o, c).pieces == [if c.id == OwnedByUser then "-user '" else "-group '", "'"]
  {
  }

  /** A boolean constraint other than the three markers writes its option as it stands. */
  lemma FragmentBool(o: CaseOptions, h: Helpers, c: Constraint)
    requires ValidOptions(o) && KindOf(c.id) == Bool
    requires !HasFlag(o, c, OtherFilesystems) && !HasFlag(o, c, ShowHidden)
    ensures Fragment(o, h, c) == OptionOf(o, c).pieces[0] + " "
  {
    var f := OptionOf(o, c);
    assert f != OtherFilesystemsFormat && f != ShowHiddenFormat;
    assert Fragment(o, h, c) == Printf(f, []) + " ";
  }

  /** Following links adds `-follow `; the empty-file test adds its size and type tests. */
  lemma FragmentFollowAndEmpty(o: CaseOptions, h: Helpers, c: Constraint)
    requires ValidOptions(o) && (c.id == FollowSymbolicLinks || c.id == FileIsEmpty)
    ensures c.id == FollowSymbolicLinks ==> Fragment(o, h, c) == "-follow "
    ensures c.id == FileIsEmpty ==> Fragment(o, h, c) == "-size 0c \\( -type f -o -type d \\) "
  {
    var head := if c.id == FollowSymbolicLinks then "-follow" else "-size 0c \\( -type f -o -type d \\)";
    assert OptionOf(o, c).pieces == [head];
    FragmentBool(o, h, c);
  }

  /** The fragments of a constraint list, in list order. */
  function Fragments(o: CaseOptions, h: Helpers, cs: seq<Constraint>): string
    requires ValidOptions(o)
  {
    if cs == [] then "" else Fragment(o, h, cs[0]) + Fragments(o, h, cs[1..])
  }

  /**
   * The escaped text of the last regular-expression constraint of the
   * list, None when there is none.
   */
  function LastRegex(o: CaseOptions, h: Helpers, cs: seq<Constraint>): (r: Option<string>)
    requires ValidOptions(o)
  {
    if cs == [] then None
    else
      var later := LastRegex(o, h, cs[1..]);
      if later.Some? then later
      else if HasFlag(o, cs[0], Regex) then Some(Escaped(h, cs[0].text))
      else None
  }

  /** The command so far and the flags the constraint loop has set. */
  datatype Composed = Composed(
    command: string, disableMount: bool, showHidden: bool, regexEnabled: bool, regexString: Option<string>)

  /** One turn of the constraint loop. */
  function Step(o: CaseOptions, h: Helpers, acc: Composed, c: Constraint): Composed
    requires ValidOptions(o)
  {
    Composed(
      acc.command + Fragment(o, h, c),
      acc.disableMount || HasFlag(o, c, OtherFilesystems),
      acc.showHidden || HasFlag(o, c, ShowHidden),
      acc.regexEnabled || HasFlag(o, c, Regex),
      if HasFlag(o, c, Regex) then Some(Escaped(h, c.text)) else acc.regexString)
  }

  /** The whole constraint loop. */
  function Compose(o: CaseOptions, h: Helpers, acc: Composed, cs: seq<Constraint>): Composed
    requires ValidOptions(o)
    decreases |cs|
  {
    if cs == [] then acc else Compose(o, h, Step(o, h, acc, cs[0]), cs[1..])
  }

  lemma AnyFlagCons(o: CaseOptions, cs: seq<Constraint>, fl: Flag)
    requires ValidOptions(o) && cs != []
    ensures AnyFlag(o, cs, fl) <==> HasFlag(o, cs[0], fl) || AnyFlag(o, cs[1..], fl)
  {
    if AnyFlag(o, cs, fl) && !HasFlag(o, cs[0], fl) {
      var i :| 0 <= i < |cs| && HasFlag(o, cs[i], fl);
      assert cs[1..][i - 1] == cs[i];
    }
    if AnyFlag(o, cs[1..], fl) {
      var i :| 0 <= i < |cs[1..]| && HasFlag(o, cs[1..][i], fl);
      assert cs[i + 1] == cs[1..][i];
    }
  }

  /** The loop appends the fragments of the list, in list order. */
  lemma {:induction false} ComposeCommand(o: CaseOptions, h: Helpers, acc: Composed, cs: seq<Constraint>)
    requires ValidOptions(o)
    ensures Compose(o, h, acc, cs).command == acc.command + Fragments(o, h, cs)
    decreases |cs|
  {
    if cs != [] {
      var next := Step(o, h, acc, cs[0]);
      ComposeCommand(o, h, next, cs[1..]);
      ComposeUnfolds(o, h, acc, cs);
      Associative(acc.command, Fragment(o, h, cs[0]), Fragments(o, h, cs[1..]));
    }
  }

  /** One turn of the loop, and the list of fragments, unfolded once. */
  lemma ComposeUnfolds(o: CaseOptions, h: Helpers, acc: Composed, cs: seq<Constraint>)
    requires ValidOptions(o) && cs != []
    ensures Compose(o, h, acc, cs) == Compose(o, h, Step(o, h, acc, cs[0]), cs[1..])
    ensures Step(o, h, acc, cs[0]).command == acc.command + Fragment(o, h, cs[0])
    ensures Fragments(o, h, cs) == Fragment(o, h, cs[0]) + Fragments(o, h, cs[1..])
  {
  }

  /** A flag ends up set exactly when it was set before or some constraint of the list carries it. */
  lemma {:induction false} ComposeFlag(o: CaseOptions, h: Helpers, acc: Composed, cs: seq<Constraint>, fl: Flag)
    requires ValidOptions(o)
    ensures var c := Compose(o, h, acc, cs);
      match fl
      case OtherFilesystems => c.disableMount <==> acc.disableMount || AnyFlag(o, cs, fl)
      case ShowHidden => c.showHidden <==> acc.showHidden || AnyFlag(o, cs, fl)
      case Regex => c.regexEnabled <==> acc.regexEnabled || AnyFlag(o, cs, fl)
    decreases |cs|
  {
    if cs != [] {
      ComposeFlag(o, h, Step(o, h, acc, cs[0]), cs[1..], fl);
      AnyFlagCons(o, cs, fl);
    }
  }

  /** The regex kept is that of the last regex constraint, or the earlier one when there is none. */
  lemma {:induction false} ComposeRegexString(o: CaseOptions, h: Helpers, acc: Composed, cs: seq<Constraint>)
    requires ValidOptions(o)
    ensures Compose(o, h, acc, cs).regexString
      == if LastRegex(o, h, cs).Some? then LastRegex(o, h, cs) else acc.regexString
    decreases |cs|
  {
    if cs != [] {
      ComposeRegexString(o, h, Step(o, h, acc, cs[0]), cs[1..]);
    }
  }

  /** LastRegex finds a regex constraint, and none follows it. */
  lemma {:induction false} LastRegexIsLast(o: CaseOptions, h: Helpers, cs: seq<Constraint>)
    requires ValidOptions(o)
    ensures LastRegex(o, h, cs).Some? <==> AnyFlag(o, cs, Regex)
    ensures LastRegex(o, h, cs).Some? ==>
      exists i :: (0 <= i < |cs| && HasFlag(o, cs[i], Regex)
        && LastRegex(o, h, cs).value == Escaped(h, cs[i].text)
        && forall j :: i < j < |cs| ==> !HasFlag(o, cs[j], Regex))
    decreases |cs|
  {
    if cs != [] {
      var tail := cs[1..];
      LastRegexIsLast(o, h, tail);
      AnyFlagCons(o, cs, Regex);
      var r := LastRegex(o, h, cs);
      if LastRegex(o, h, tail).Some? {
        var i :| 0 <= i < |tail| && HasFlag(o, tail[i], Regex)
          && LastRegex(o, h, tail).value == Escaped(h, tail[i].text)
          && forall j :: i < j < |tail| ==> !HasFlag(o, tail[j], Regex);
        assert cs[i + 1] == tail[i];
        forall j | i + 1 < j < |cs| ensures !HasFlag(o, cs[j], Regex) {
          assert cs[j] == tail[j - 1];
        }
      } else if r.Some? {
        forall j | 0 < j < |cs| ensures !HasFlag(o, cs[j], Regex) {
          assert cs[j] == tail[j - 1];
        }
      }
    }
  }

  /** The command and the state `build_search_command` leaves. */
  datatype Built = Built(state: SearchStruct, command: string)

  /** `find "ROOT" OPT 'PAT' -xdev -print`. */
  function PlainFind(folder: string, opt: string, escaped: string): string {
    "find \"" + folder + "\" " + opt + " '" + escaped + "' -xdev -print"
  }

  /** `LOCATE OPTS 'ROOT*PAT'`. */
  function LocateCommand(locate: string, opts: string, folder: string, escaped: string): string {
    locate + " " + opts + " '" + folder + "*" + escaped + "'"
  }

  /** `find "ROOT" ` followed by the name clause: where a composed command starts. */
  function ComposedHead(folder: string, opt: string, escaped: string): string {
    "find \"" + folder + "\" " + SetupFindNameOptions(opt, escaped)
  }

  /** Whether the builder takes the branch without constraints. */
  predicate PlainSearch(r: Request) {
    !r.panelVisible || !HasAdditionalConstraints(r.constraints)
  }

  /** Whether a first pass is sent to `locate`. */
  predicate QuickSearch(r: Request, st: Settings, h: Helpers) {
    !st.disableQuickSearch && st.locate.Some? && !h.isQuickSearchExcludedPath(LookInFolder(r.folder))
  }

  /** The fields every build assigns first. */
  function BuildStart(s: SearchStruct, firstPass: bool, folder: string): SearchStruct {
    s.(lookInFolder := folder, showHiddenFiles := false, regexString := None,
      firstPass := firstPass, quickMode := if firstPass then false else s.quickMode)
  }

  /** The branch without effective constraints. */
  function BuildPlain(s1: SearchStruct, firstPass: bool, r: Request, st: Settings, o: CaseOptions, h: Helpers): Built {
    Built(PlainState(s1, firstPass, r, st, h), PlainCommand(s1.lookInFolder, firstPass, r, st, o, h))
  }

  /**
   * The record after the plain branch: the pattern, and on a first pass the
   * second-pass switch and, when `locate` is used, quick mode.
   */
  function PlainState(s1: SearchStruct, firstPass: bool, r: Request, st: Settings, h: Helpers): SearchStruct {
    s1.(fileIsNamedPattern := NamePattern(r.nameEntry),
      disableSecondPass := if firstPass then st.disableSecondPass else s1.disableSecondPass,
      quickMode := if firstPass && QuickSearch(r, st, h) then true else s1.quickMode)
  }

  /** The command of the plain branch: `locate` on a quick first pass, the plain `find` otherwise. */
  function PlainCommand(folder: string, firstPass: bool, r: Request, st: Settings, o: CaseOptions, h: Helpers): string {
    var escaped := Escaped(h, NamePattern(r.nameEntry));
    if firstPass && QuickSearch(r, st, h) then LocateCommand(st.locate.value, o.locateOptions, folder, escaped)
    else PlainFind(folder, o.findNameOption, escaped)
  }

  function ComposedTail(c: Composed): string {
    (if c.disableMount then "" else "-xdev ") + "-print "
  }

  /** The branch with effective constraints. */
  function BuildComposed(s1: SearchStruct, r: Request, o: CaseOptions, h: Helpers): Built
    requires ValidOptions(o)
  {
    var escaped := Escaped(h, NamePattern(r.nameEntry));
    var init := Composed(ComposedHead(s1.lookInFolder, o.findNameOption, escaped), false, false, false, None);
    var c := Compose(o, h, init, r.constraints);
    Built(
      s1.(regexMatchingEnabled := c.regexEnabled, regexString := c.regexString,
        showHiddenFiles := c.showHidden, fileIsNamedPattern := "*"),
      c.command + ComposedTail(c))
  }

  /**
   * `build_search_command (first_pass)`. Fields the source does not
   * assign on a path keep their old values: `regex_matching_enabled` on
   * the plain path, `quick_mode` on a later pass, `disable_second_pass`
   * outside a plain first pass.
   */
  function BuildSearchCommand(s: SearchStruct, firstPass: bool, r: Request, st: Settings, o: CaseOptions, h: Helpers): (b: Built)
    requires ValidOptions(o)
  {
    var s1 := BuildStart(s, firstPass, LookInFolder(r.folder));
    if PlainSearch(r) then BuildPlain(s1, firstPass, r, st, o, h)
    else BuildComposed(s1, r, o, h)
  }

  /**
   * The search record after any build: the folder ends with a separator,
   * the pass is the one asked for, and the run-state fields are untouched.
   */
  lemma BuildKeepsRunState(s: SearchStruct, firstPass: bool, r: Request, st: Settings, o: CaseOptions, h: Helpers)
    requires ValidOptions(o)
    ensures var b := BuildSearchCommand(s, firstPass, r, st, o, h).state;
      b.lookInFolder == LookInFolder(r.folder) && EndsWith(b.lookInFolder, "/")
      && b.firstPass == firstPass
      && b.running == s.running && b.aborted == s.aborted && b.lock == s.lock
      && b.hashesLive == s.hashesLive && b.fileHash == s.fileHash && b.results == s.results
      && '*' in b.fileIsNamedPattern
  {
    var s1 := BuildStart(s, firstPass, LookInFolder(r.folder));
    var b := BuildSearchCommand(s, firstPass, r, st, o, h);
    if PlainSearch(r) {
      assert b == BuildPlain(s1, firstPass, r, st, o, h);
      PlainKeepsRunState(s1, firstPass, r, st, h);
    } else {
      assert b == BuildComposed(s1, r, o, h);
      ComposedResult(s1, r, o, h);
    }
  }

  /** The plain branch leaves the folder, the pass and the run-state fields as they were. */
  lemma PlainKeepsRunState(s1: SearchStruct, firstPass: bool, r: Request, st: Settings, h: Helpers)
    ensures var b := PlainState(s1, firstPass, r, st, h);
      b.lookInFolder == s1.lookInFolder && b.firstPass == s1.firstPass
      && b.running == s1.running && b.aborted == s1.aborted && b.lock == s1.lock
      && b.hashesLive == s1.hashesLive && b.fileHash == s1.fileHash && b.results == s1.results
      && b.fileIsNamedPattern == NamePattern(r.nameEntry)
  {
  }

  /**
   * Without effective constraints, a first pass uses `locate` and sets
   * quick mode exactly when quick search is enabled, `locate` is found and
   * the folder is not excluded; every other plain search is the plain
   * `find`, and the result filter uses the unescaped pattern.
   */
  lemma PlainBuild(s: SearchStruct, firstPass: bool, r: Request, st: Settings, o: CaseOptions, h: Helpers)
    requires ValidOptions(o) && PlainSearch(r)
    ensures var b := BuildSearchCommand(s, firstPass, r, st, o, h);
      var folder := LookInFolder(r.folder);
      var escaped := Escaped(h, NamePattern(r.nameEntry));
      b.state.fileIsNamedPattern == NamePattern(r.nameEntry)
      && b.state.regexMatchingEnabled == s.regexMatchingEnabled
      && b.state.regexString.None? && !b.state.showHiddenFiles
      && (firstPass ==> b.state.disableSecondPass == st.disableSecondPass)
      && (firstPass ==> (b.state.quickMode <==> QuickSearch(r, st, h)))
      && (firstPass && QuickSearch(r, st, h) ==>
            b.command == LocateCommand(st.locate.value, o.locateOptions, folder, escaped))
      && (!(firstPass && QuickSearch(r, st, h)) ==> b.command == PlainFind(folder, o.findNameOption, escaped))
      && (!firstPass ==> b.state.quickMode == s.quickMode)
  {
    var s1 := BuildStart(s, firstPass, LookInFolder(r.folder));
    assert BuildSearchCommand(s, firstPass, r, st, o, h)
      == Built(PlainState(s1, firstPass, r, st, h), PlainCommand(LookInFolder(r.folder), firstPass, r, st, o, h));
  }

  /**
   * With effective constraints the command is the name clause, the
   * constraints' fragments in list order, `-xdev ` unless some constraint
   * asks for other filesystems, and `-print `; the filter then accepts any
   * base name, shows hidden files exactly when asked, and applies the
   * regex of the last regex constraint exactly when there is one.
   */
  lemma ComposedBuild(s: SearchStruct, firstPass: bool, r: Request, st: Settings, o: CaseOptions, h: Helpers)
    requires ValidOptions(o) && !PlainSearch(r)
    ensures var b := BuildSearchCommand(s, firstPass, r, st, o, h);
      var cs := r.constraints;
      var head := ComposedHead(LookInFolder(r.folder), o.findNameOption, Escaped(h, NamePattern(r.nameEntry)));
      b.command == head + Fragments(o, h, cs)
        + (if AnyFlag(o, cs, OtherFilesystems) then "" else "-xdev ") + "-print "
      && EndsWith(b.command, "-print ")
      && b.state.fileIsNamedPattern == "*"
      && (b.state.showHiddenFiles <==> AnyFlag(o, cs, ShowHidden))
      && (b.state.regexMatchingEnabled <==> AnyFlag(o, cs, Regex))
      && b.state.regexString == LastRegex(o, h, cs)
      && (firstPass ==> !b.state.quickMode)
  {
    var s1 := BuildStart(s, firstPass, LookInFolder(r.folder));
    assert BuildSearchCommand(s, firstPass, r, st, o, h) == BuildComposed(s1, r, o, h);
    ComposedResult(s1, r, o, h);
  }

  /** What the constraint branch produces from the record as the build starts it. */
  lemma ComposedResult(s1: SearchStruct, r: Request, o: CaseOptions, h: Helpers)
    requires ValidOptions(o)
    ensures var b := BuildComposed(s1, r, o, h);
      var cs := r.constraints;
      var head := ComposedHead(s1.lookInFolder, o.findNameOption, Escaped(h, NamePattern(r.nameEntry)));
      b.command == head + Fragments(o, h, cs)
        + (if AnyFlag(o, cs, OtherFilesystems) then "" else "-xdev ") + "-print "
      && EndsWith(b.command, "-print ")
      && b.state == s1.(regexMatchingEnabled := b.state.regexMatchingEnabled, regexString := b.state.regexString,
           showHiddenFiles := b.state.showHiddenFiles, fileIsNamedPattern := "*")
      && (b.state.showHiddenFiles <==> AnyFlag(o, cs, ShowHidden))
      && (b.state.regexMatchingEnabled <==> AnyFlag(o, cs, Regex))
      && b.state.regexString == LastRegex(o, h, cs)
  {
    var head := ComposedHead(s1.lookInFolder, o.findNameOption, Escaped(h, NamePattern(r.nameEntry)));
    var init := Composed(head, false, false, false, None);
    var cs := r.constraints;
    var c := Compose(o, h, init, cs);
    var b := BuildComposed(s1, r, o, h);
    assert b == Built(
      s1.(regexMatchingEnabled := c.regexEnabled, regexString := c.regexString,
        showHiddenFiles := c.showHidden, fileIsNamedPattern := "*"),
      c.command + ComposedTail(c));
    ComposeCommand(o, h, init, cs);
    ComposeFlag(o, h, init, cs, OtherFilesystems);
    ComposeFlag(o, h, init, cs, ShowHidden);
    ComposeFlag(o, h, init, cs, Regex);
    ComposeRegexString(o, h, init, cs);
    var x := if AnyFlag(o, cs, OtherFilesystems) then "" else "-xdev ";
    assert c.disableMount <==> AnyFlag(o, cs, OtherFilesystems);
    assert ComposedTail(c) == x + "-print ";
    Associative(head + Fragments(o, h, cs), x, "-print ");
    EndsWithPrint(c.command, c.disableMount);
  }

  lemma EndsWithPrint(command: string, disableMount: bool)
    ensures EndsWith(command + ((if disableMount then "" else "-xdev ") + "-print "), "-print ")
  {
    var tail := (if disableMount then "" else "-xdev ") + "-print ";
    var cmd := command + tail;
    assert cmd[|cmd| - |"-print "|..] == tail[|tail| - |"-print "|..];
  }

  /**
   * A regex constraint with an empty text is not effective on its own,
   * yet next to an effective constraint it still switches regex matching
   * on, with the empty escaped text as the regex.
   */
  lemma EmptyRegexStillFilters(o: CaseOptions, h: Helpers, c: Constraint, other: Constraint)
    requires ValidOptions(o) && HasFlag(o, c, Regex) && c.text == [] && Effective(other)
    ensures !HasAdditionalConstraints([c])
    ensures var cs := [other, c];
      HasAdditionalConstraints(cs) && AnyFlag(o, cs, Regex)
      && LastRegex(o, h, cs) == Some(Escaped(h, []))
  {
    var cs := [other, c];
    assert cs[1..] == [c];
    assert [c][1..] == [];
    assert LastRegex(o, h, [c]) == Some(Escaped(h, c.text));
    assert cs[0] == other && cs[1] == c;
  }

  /**
   * With the templates the probes produce, the only constraint that sets a
   * flag is the matching entry of the table.
   */
  lemma FlagsComeFromTheirEntries(p: Probe, c: Constraint)
    ensures var o := SetupCaseInsensitiveArguments(p);
      (HasFlag(o, c, OtherFilesystems) <==> c.id == SearchOtherFilesystems)
      && (HasFlag(o, c, ShowHidden) <==> c.id == ShowHiddenFilesAndFolders)
      && (HasFlag(o, c, Regex) <==> c.id == FileMatchesRegularExpression)
  {
  }
}
