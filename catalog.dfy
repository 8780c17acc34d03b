/**
 * The constraint catalogue: the table of `find` option templates, the
 * identifiers that index it, the per-constraint values the user edits, and
 * the question whether any selected constraint changes the command.
 */
module Catalog {
  import opened Wrappers
  import opened CStrings

  datatype ConstraintType = Bool | Text | Number | TimeLess | TimeMore | Separator | End

  /**
   * A printf format with a single kind of conversion: the literal pieces
   * around the conversions and the conversion letter (`s`, `d` or `u`).
   * `Format(["-mtime -", ""], 'd')` stands for the C literal "-mtime -%d".
   */
  datatype Format = Format(pieces: seq<string>, conv: char)

  predicate WellFormed(f: Format) {
    |f.pieces| >= 1
  }

  /** The number of values a format consumes. */
  function Arity(f: Format): (n: nat)
    requires WellFormed(f)
    ensures n + 1 == |f.pieces|
  {
    |f.pieces| - 1
  }

  /** The pieces with the arguments written between them. */
  function Interleave(pieces: seq<string>, args: seq<string>): (r: string)
    requires |pieces| == |args| + 1
    ensures StartsWith(r, pieces[0])
    ensures EndsWith(r, pieces[|pieces| - 1])
    decreases |args|
  {
    if args == [] then pieces[0]
    else
      var tail := Interleave(pieces[1..], args[1..]);
      assert EndsWith(pieces[0] + args[0] + tail, pieces[|pieces| - 1]) by {
        assert pieces[1..][|pieces[1..]| - 1] == pieces[|pieces| - 1];
        assert (pieces[0] + args[0] + tail)[|pieces[0] + args[0]|..] == tail;
      }
      pieces[0] + args[0] + tail
  }

  /**
   * `g_string_append_printf (command, format, args...)` for already
   * rendered args: each argument is written, in order, between the two
   * literal pieces around its conversion.
   */
  function Printf(f: Format, args: seq<string>): (s: string)
    requires WellFormed(f) && |args| == Arity(f)
    ensures StartsWith(s, f.pieces[0]) && EndsWith(s, f.pieces[|f.pieces| - 1])
    ensures |args| == 0 ==> s == f.pieces[0]
    ensures |args| == 1 ==> s == f.pieces[0] + args[0] + f.pieces[1]
    ensures |args| == 2 ==> s == f.pieces[0] + args[0] + f.pieces[1] + args[1] + f.pieces[2]
  {
    InterleaveShape(f.pieces, args);
    Interleave(f.pieces, args)
  }

  /** A formatted option holds the format's pieces and the arguments, and nothing else. */
  lemma PrintfLength(f: Format, args: seq<string>)
    requires WellFormed(f) && |args| == Arity(f)
    ensures |Printf(f, args)| == SumLengths(f.pieces) + SumLengths(args)
  {
    InterleaveShape(f.pieces, args);
  }

  /** The total length of a list of texts. */
  function SumLengths(ts: seq<string>): nat {
    if ts == [] then 0 else |ts[0]| + SumLengths(ts[1..])
  }

  /** Interleaving writes every piece and every argument, and nothing else. */
  lemma {:induction false} InterleaveShape(pieces: seq<string>, args: seq<string>)
    requires |pieces| == |args| + 1
    ensures |args| == 1 ==> Interleave(pieces, args) == pieces[0] + args[0] + pieces[1]
    ensures |args| == 2 ==> Interleave(pieces, args) == pieces[0] + args[0] + pieces[1] + args[1] + pieces[2]
    ensures |Interleave(pieces, args)| == SumLengths(pieces) + SumLengths(args)
    decreases |args|
  {
    if args != [] {
      var p, a := pieces[1..], args[1..];
      InterleaveShape(p, a);
      var tail := Interleave(p, a);
      if |args| == 1 {
        assert a == [] && p == [pieces[1]];
      } else if |args| == 2 {
        assert p[1..] == [pieces[2]] && a[1..] == [];
        assert tail == pieces[1] + args[1] + pieces[2];
        Associative(pieces[0] + args[0], pieces[1] + args[1], pieces[2]);
        Associative(pieces[0] + args[0], pieces[1], args[1]);
      }
    }
  }

  function Literal(s: string): (f: Format)
    ensures WellFormed(f) && Arity(f) == 0
  {
    Format([s], 's')
  }

  /** One row of the template table; separators and the end marker have no option. */
  datatype Template = Template(kind: ConstraintType, option: Option<Format>)

  /**
   * What the three capability probes wrote on standard error (None when
   * the probe could not be run): `find /dev/null -iname 'string'`,
   * `grep -i 'string' /dev/null` and `locate -i /dev/null/string`.
   */
  datatype Probe = Probe(findStderr: Option<string>, grepStderr: Option<string>, locateStderr: Option<string>)

  /** A probed option is supported when the probe ran and printed nothing. */
  predicate Supported(stderr: Option<string>) {
    stderr == Some("")
  }

  /**
   * The results of `setup_case_insensitive_arguments`: the name option for
   * `find`, the options for `locate`, and the two templates it rewrites.
   */
  datatype CaseOptions = CaseOptions(
    findNameOption: string, locateOptions: string, containsOption: Format, notNamedOption: Format)

  const ContainsDefault: Format := Format(["'!' -type p -exec grep -c '", "' {} \\;"], 's')
  const ContainsCaseless: Format := Format(["'!' -type p -exec grep -i -c '", "' {} \\;"], 's')
  const NotNamedDefault: Format := Format(["'!' -name '*", "*'"], 's')
  const NotNamedCaseless: Format := Format(["'!' -iname '*", "*'"], 's')
  const MtimeLessFormat: Format := Format(["-mtime -", ""], 'd')
  const MtimeMoreFormat: Format := Format(["\\( -mtime +", " -o -mtime ", " \\)"], 'd')
  const SizeMoreFormat: Format := Format(["\\( -size ", "c -o -size +", "c \\)"], 'u')
  const SizeLessFormat: Format := Format(["\\( -size ", "c -o -size -", "c \\)"], 'u')
  const EmptyFormat: Format := Literal("-size 0c \\( -type f -o -type d \\)")
  const UserFormat: Format := Format(["-user '", "'"], 's')
  const GroupFormat: Format := Format(["-group '", "'"], 's')
  const NoUserFormat: Format := Literal("\\( -nouser -o -nogroup \\)")
  const RegexFormat: Format := Format(["-regex '", "'"], 's')
  /** Markers that are never passed to `find`. */
  const ShowHiddenFormat: Format := Literal("SHOW_HIDDEN_FILES")
  const FollowFormat: Format := Literal("-follow")
  const OtherFilesystemsFormat: Format := Literal("INCLUDE_OTHER_FILESYSTEMS")

  /** A template option that takes one `%s`. */
  predicate TextFormat(f: Format) {
    WellFormed(f) && Arity(f) == 1 && f.conv == 's'
  }

  /** The probe results the template table can be built from. */
  predicate ValidOptions(o: CaseOptions) {
    TextFormat(o.containsOption) && TextFormat(o.notNamedOption)
  }

  function SetupCaseInsensitiveArguments(p: Probe): (o: CaseOptions)
    ensures ValidOptions(o)
    ensures o.findNameOption == "-iname" || o.findNameOption == "-name"
    ensures o.findNameOption == "-iname" <==> Supported(p.findStderr)
    ensures o.findNameOption == "-iname" <==> o.notNamedOption == NotNamedCaseless
    ensures o.findNameOption == "-name" <==> o.notNamedOption == NotNamedDefault
    ensures o.containsOption == ContainsCaseless <==> Supported(p.grepStderr)
    ensures o.locateOptions == "-i" <==> Supported(p.locateStderr)
    ensures o.locateOptions == "" <==> !Supported(p.locateStderr)
  {
    CaseOptions(
      if Supported(p.findStderr) then "-iname" else "-name",
      if Supported(p.locateStderr) then "-i" else "",
      if Supported(p.grepStderr) then ContainsCaseless else ContainsDefault,
      if Supported(p.findStderr) then NotNamedCaseless else NotNamedDefault)
  }

  /** The number of templates before the end marker (`SEARCH_CONSTRAINT_MAXIMUM_POSSIBLE`). */
  const MaximumPossible: nat := 19

  type ConstraintId = i: int | 0 <= i < 19

  const ContainsTheText: ConstraintId := 0
  const DateModifiedBefore: ConstraintId := 2
  const DateModifiedAfter: ConstraintId := 3
  const SizeIsMoreThan: ConstraintId := 5
  const SizeIsLessThan: ConstraintId := 6
  const FileIsEmpty: ConstraintId := 7
  const OwnedByUser: ConstraintId := 9
  const OwnedByGroup: ConstraintId := 10
  const OwnerIsUnrecognized: ConstraintId := 11
  const FileIsNotNamed: ConstraintId := 13
  const FileMatchesRegularExpression: ConstraintId := 14
  const ShowHiddenFilesAndFolders: ConstraintId := 16
  const FollowSymbolicLinks: ConstraintId := 17
  const SearchOtherFilesystems: ConstraintId := 18

  /** The kind of template i, in table order, the end marker last. */
  function KindAt(i: nat): (k: ConstraintType)
    requires i <= MaximumPossible
    ensures k == End <==> i == MaximumPossible
  {
    match i
    case 0 => Text
    case 2 => TimeLess
    case 3 => TimeMore
    case 5 => Number
    case 6 => Number
    case 7 => Bool
    case 9 => Text
    case 10 => Text
    case 11 => Bool
    case 13 => Text
    case 14 => Text
    case 16 => Bool
    case 17 => Bool
    case 18 => Bool
    case 19 => End
    case _ => Separator
  }

  /** The number of values each kind's option consumes. */
  function KindArity(k: ConstraintType): nat {
    match k
    case Text => 1
    case Number => 2
    case TimeLess => 1
    case TimeMore => 2
    case _ => 0
  }

  /** The conversion each kind's option uses. */
  function KindConversion(k: ConstraintType): char {
    match k
    case Text => 's'
    case Number => 'u'
    case _ => 'd'
  }

  /** Row i of the template table, with the two rows the probes may rewrite taken from o. */
  function TemplateAt(o: CaseOptions, i: nat): (t: Template)
    requires ValidOptions(o) && i <= MaximumPossible
    ensures t.kind == KindAt(i)
    ensures t.option.Some? <==> t.kind != Separator && t.kind != End
    ensures t.option.Some? ==> WellFormed(t.option.value) && Arity(t.option.value) == KindArity(t.kind)
    ensures t.option.Some? && KindArity(t.kind) > 0 ==> t.option.value.conv == KindConversion(t.kind)
  {
    match i
    case 0 => Template(Text, Some(o.containsOption))
    case 2 => Template(TimeLess, Some(MtimeLessFormat))
    case 3 => Template(TimeMore, Some(MtimeMoreFormat))
    case 5 => Template(Number, Some(SizeMoreFormat))
    case 6 => Template(Number, Some(SizeLessFormat))
    case 7 => Template(Bool, Some(EmptyFormat))
    case 9 => Template(Text, Some(UserFormat))
    case 10 => Template(Text, Some(GroupFormat))
    case 11 => Template(Bool, Some(NoUserFormat))
    case 13 => Template(Text, Some(o.notNamedOption))
    case 14 => Template(Text, Some(RegexFormat))
    case 16 => Template(Bool, Some(ShowHiddenFormat))
    case 17 => Template(Bool, Some(FollowFormat))
    case 18 => Template(Bool, Some(OtherFilesystemsFormat))
    case 19 => Template(End, None)
    case _ => Template(Separator, None)
  }

  /** The whole table (`templates[]`), the end marker last. */
  function Templates(o: CaseOptions): (t: seq<Template>)
    requires ValidOptions(o)
    ensures |t| == MaximumPossible + 1
    ensures forall i :: 0 <= i < |t| ==> t[i] == TemplateAt(o, i)
  {
    seq(MaximumPossible + 1, i requires 0 <= i <= MaximumPossible => TemplateAt(o, i))
  }

  /** The kind of the template a constraint refers to. */
  function KindOf(id: ConstraintId): (k: ConstraintType)
    ensures k != End
  {
    KindAt(id)
  }

  /**
   * A selected constraint. The C union keeps either a text or one integer
   * (`time` and `number` share storage); both are kept here and the kind
   * of the template decides which one is meaningful.
   */
  datatype Constraint = Constraint(id: ConstraintId, text: string, value: Int32)

  /** A constraint that changes the command: any non-text kind, or a non-empty text. */
  predicate Effective(c: Constraint) {
    match KindOf(c.id)
    case Bool => true
    case Number => true
    case TimeLess => true
    case TimeMore => true
    case Text => c.text != []
    case _ => false
  }

  /**
   * `has_additional_constraints`: a scan of the selection in list order that
   * stops at the first effective constraint.
   */
  function HasAdditionalConstraints(cs: seq<Constraint>): (r: bool)
    ensures r <==> exists i :: 0 <= i < |cs| && Effective(cs[i])
    decreases |cs|
  {
    if cs == [] then false
    else if Effective(cs[0]) then true
    else
      var r := HasAdditionalConstraints(cs[1..]);
      assert r ==> exists i :: 0 <= i < |cs| && Effective(cs[i]) by {
        if r {
          var j :| 0 <= j < |cs[1..]| && Effective(cs[1..][j]);
          assert cs[j + 1] == cs[1..][j];
        }
      }
      assert (exists i :: 0 <= i < |cs| && Effective(cs[i])) ==> r by {
        if exists i :: 0 <= i < |cs| && Effective(cs[i]) {
          var j :| 0 <= j < |cs| && Effective(cs[j]);
          assert cs[1..][j - 1] == cs[j];
        }
      }
      r
  }

  /** `set_constraint_info_defaults`: the value a freshly added constraint starts with. */
  function SetConstraintInfoDefaults(c: Constraint): (d: Constraint)
    ensures d.id == c.id
    ensures KindOf(c.id) == Text ==> d.text == "" && d.value == c.value
    ensures KindOf(c.id) in {Number, TimeLess, TimeMore} ==> d.value == 0 && d.text == c.text
    ensures KindOf(c.id) !in {Text, Number, TimeLess, TimeMore} ==> d == c
  {
    match KindOf(c.id)
    case Text => c.(text := "")
    case Number => c.(value := 0)
    case TimeLess => c.(value := 0)
    case TimeMore => c.(value := 0)
    case _ => c
  }

  /**
   * `update_constraint_info`: a text constraint takes the entry's text; a
   * numeric one takes what `sscanf ("%d")` reads from it and keeps its old
   * value when nothing can be read; other kinds are left alone.
   */
  function UpdateConstraintInfo(c: Constraint, info: string): (d: Constraint)
    ensures d.id == c.id
    ensures KindOf(c.id) == Text ==> d == c.(text := info)
    ensures KindOf(c.id) != Text ==> d.text == c.text
    ensures KindOf(c.id) !in {Number, TimeLess, TimeMore} ==> d.value == c.value
    ensures KindOf(c.id) in {Number, TimeLess, TimeMore} && ScanDecimal(info).None? ==> d == c
    ensures KindOf(c.id) in {Number, TimeLess, TimeMore} && ScanDecimal(info).Some? ==>
      d == c.(value := Wrap32(ScanDecimal(info).value))
  {
    match KindOf(c.id)
    case Text => c.(text := info)
    case Number => ScanInto(c, info)
    case TimeLess => ScanInto(c, info)
    case TimeMore => ScanInto(c, info)
    case _ => c
  }

  function ScanInto(c: Constraint, info: string): (d: Constraint)
    ensures d.id == c.id && d.text == c.text
  {
    match ScanDecimal(info)
    case None => c
    case Some(v) => c.(value := Wrap32(v))
  }

  /** A text constraint starts out ineffective; a numeric or boolean one is effective at once. */
  lemma DefaultsEffective(c: Constraint)
    ensures Effective(SetConstraintInfoDefaults(c)) <==> KindOf(c.id) != Text && KindOf(c.id) != Separator
  {
  }

  /** A numeric constraint updated with the decimal form of a C int holds that int. */
  lemma UpdateReadsDecimal(c: Constraint, x: Int32)
    requires KindOf(c.id) in {Number, TimeLess, TimeMore}
    ensures UpdateConstraintInfo(c, IntToDecimal(x)).value == x
  {
    DecimalRoundTrip(x);
  }
}
