/**
 * Serialising the current search for a restarted session
 * (`set_clone_command`) and naming it for a saved desktop item
 * (`get_desktop_item_name`): the entry, the folder and, when the
 * constraint panel is shown, one flag per selected constraint in list
 * order.
 */
module Clone {
  import opened Wrappers
  import opened CStrings
  import opened Catalog
  import opened Foreign
  import opened Command

  /**
   * The command-line flag of one constraint; text values go through q
   * (`g_shell_quote` when values are escaped). Separators have none.
   */
  function CloneFlag(c: Constraint, q: string -> string): (r: Option<string>)
    ensures r.Some? <==> KindOf(c.id) != Separator
  {
    match c.id
    case 0 => Some("--contains=" + q(c.text))
    case 2 => Some("--mtimeless=" + IntToDecimal(c.value))
    case 3 => Some("--mtimemore=" + IntToDecimal(c.value))
    case 5 => Some("--sizemore=" + UnsignedDecimal(c.value))
    case 6 => Some("--sizeless=" + UnsignedDecimal(c.value))
    case 7 => Some("--empty")
    case 9 => Some("--user=" + q(c.text))
    case 10 => Some("--group=" + q(c.text))
    case 11 => Some("--nouser")
    case 13 => Some("--notnamed=" + q(c.text))
    case 14 => Some("--regex=" + q(c.text))
    case 16 => Some("--hidden")
    case 17 => Some("--follow")
    case 18 => Some("--allmounts")
    case _ => None
  }

  /** The flags of a constraint list, in list order. */
  function CloneFlags(cs: seq<Constraint>, q: string -> string): seq<string>
    decreases |cs|
  {
    if cs == [] then []
    else
      var f := CloneFlag(cs[|cs| - 1], q);
      CloneFlags(cs[..|cs| - 1], q) + (if f.Some? then [f.value] else [])
  }

  /** The quoting applied to values. */
  function Quoting(escapeValues: bool, h: Helpers): string -> string {
    if escapeValues then h.shellQuote else s => s
  }

  /** Program name, `--named=`, `--path=`, then the flags when the panel is shown. */
  function CloneArgs(program: string, r: Request, escapeValues: bool, h: Helpers): (args: seq<string>)
    ensures |args| >= 3 && args[0] == program
  {
    var q := Quoting(escapeValues, h);
    [program, "--named=" + q(r.nameEntry), "--path=" + q(r.folder)]
      + (if r.panelVisible then CloneFlags(r.constraints, q) else [])
  }

  /** The ids of the constraints that have a flag, in list order. */
  function FlaggedIds(cs: seq<Constraint>): (ids: seq<int>)
    ensures forall i :: 0 <= i < |ids| ==> ids[i] in SelectableIds
    decreases |cs|
  {
    if cs == [] then []
    else
      var c := cs[|cs| - 1];
      FlaggedIds(cs[..|cs| - 1]) + (if KindOf(c.id) != Separator then [c.id as int] else [])
  }

  /** The ids of the templates that are not separators. */
  const SelectableIds: set<int> := {0, 2, 3, 5, 6, 7, 9, 10, 11, 13, 14, 16, 17, 18}

  predicate DistinctIds(cs: seq<Constraint>) {
    forall i, j :: 0 <= i < j < |cs| ==> cs[i].id != cs[j].id
  }

  lemma {:induction false} FlaggedIdsMatchFlags(cs: seq<Constraint>, q: string -> string)
    ensures |FlaggedIds(cs)| == |CloneFlags(cs, q)|
    ensures DistinctIds(cs) ==> forall i, j :: 0 <= i < j < |FlaggedIds(cs)| ==> FlaggedIds(cs)[i] != FlaggedIds(cs)[j]
    ensures forall x :: x in FlaggedIds(cs) ==> exists k :: 0 <= k < |cs| && cs[k].id == x
    decreases |cs|
  {
    if cs != [] {
      var init := cs[..|cs| - 1];
      FlaggedIdsMatchFlags(init, q);
      assert forall k :: 0 <= k < |init| ==> init[k] == cs[k];
      var c := cs[|cs| - 1];
      var before := FlaggedIds(init);
      var ids := FlaggedIds(cs);
      assert ids == before + (if KindOf(c.id) != Separator then [c.id as int] else []);
      forall x | x in ids ensures exists k :: 0 <= k < |cs| && cs[k].id == x {
        if x !in before {
          assert cs[|cs| - 1].id == x;
        }
      }
      if DistinctIds(cs) {
        assert DistinctIds(init);
        forall x | x in before ensures x != c.id {
          var k :| 0 <= k < |init| && init[k].id == x;
          assert cs[k].id == x;
        }
        forall i, j | 0 <= i < j < |ids| ensures ids[i] != ids[j] {
          if j >= |before| {
            assert ids[i] in before;
          }
        }
      }
    }
  }

  /** A sequence without repeats has as many elements as its set. */
  lemma {:induction false} DistinctCard(s: seq<int>)
    requires forall i, j :: 0 <= i < j < |s| ==> s[i] != s[j]
    ensures |set x | x in s| == |s|
    decreases |s|
  {
    if s != [] {
      var init := s[..|s| - 1];
      DistinctCard(init);
      assert (set x | x in s) == (set x | x in init) + {s[|s| - 1]};
      assert s[|s| - 1] !in (set x | x in init);
    }
  }

  lemma SubsetCard(a: set<int>, b: set<int>)
    requires a <= b
    ensures |a| <= |b|
  {
    var rest := b - a;
    assert b == a + rest;
    assert a * rest == {};
  }

  /**
   * With each constraint selected at most once, the arguments fit the 19
   * slots `set_clone_command` allocates. That the selection has no repeated
   * id is assumed here, not derived from the menu model.
   */
  lemma DistinctConstraintsFit(program: string, r: Request, escapeValues: bool, h: Helpers)
    requires DistinctIds(r.constraints)
    ensures |CloneArgs(program, r, escapeValues, h)| <= 3 + |SelectableIds| <= MaximumPossible
  {
    var q := Quoting(escapeValues, h);
    var ids := FlaggedIds(r.constraints);
    FlaggedIdsMatchFlags(r.constraints, q);
    DistinctCard(ids);
    SubsetCard((set x | x in ids), SelectableIds);
    SelectableCount();
    ArgsLength(program, r, escapeValues, h);
  }

  lemma SelectableCount()
    ensures |SelectableIds| == 14
  {
  }

  lemma ArgsLength(program: string, r: Request, escapeValues: bool, h: Helpers)
    ensures |CloneArgs(program, r, escapeValues, h)|
      == 3 + (if r.panelVisible then |CloneFlags(r.constraints, Quoting(escapeValues, h))| else 0)
  {
  }

  /** The parameter one constraint adds to the desktop item name. */
  function DesktopParam(c: Constraint): (r: Option<string>)
    ensures r.Some? <==> KindOf(c.id) != Separator
  {
    match c.id
    case 0 => Some("&contains=" + c.text)
    case 2 => Some("&mtimeless=" + IntToDecimal(c.value))
    case 3 => Some("&mtimemore=" + IntToDecimal(c.value))
    case 5 => Some("&sizemore=" + UnsignedDecimal(c.value))
    case 6 => Some("&sizeless=" + UnsignedDecimal(c.value))
    case 7 => Some("&empty")
    case 9 => Some("&user=" + c.text)
    case 10 => Some("&group=" + c.text)
    case 11 => Some("&nouser")
    case 13 => Some("&notnamed=" + c.text)
    case 14 => Some("&regex=" + c.text)
    case 16 => Some("&hidden")
    case 17 => Some("&follow")
    case 18 => Some("&allmounts")
    case _ => None
  }

  function DesktopParams(cs: seq<Constraint>): string
    decreases |cs|
  {
    if cs == [] then []
    else
      var p := DesktopParam(cs[|cs| - 1]);
      DesktopParams(cs[..|cs| - 1]) + (if p.Some? then p.value else "")
  }

  const DesktopTitle := "Search for Files"

  /** `Search for Files (named=E&path=F` and its parameters, then `)`. */
  function DesktopItemName(r: Request): (name: string)
    ensures StartsWith(name, DesktopTitle + " (" + ("named=" + r.nameEntry) + ("&path=" + r.folder))
    ensures EndsWith(name, ")")
  {
    var head := DesktopTitle + " (" + ("named=" + r.nameEntry) + ("&path=" + r.folder);
    var name := head + (if r.panelVisible then DesktopParams(r.constraints) else "") + ")";
    assert name[..|head|] == head;
    name
  }

  /**
   * The desktop item name and an unescaped clone command carry the same
   * settings: each constraint's parameter is its flag with `&` for `--`.
   */
  lemma DesktopParamIsCloneFlag(c: Constraint)
    ensures var f := CloneFlag(c, s => s); var p := DesktopParam(c);
      (f.Some? <==> p.Some?)
      && (f.Some? ==> (|f.value| >= 2 && |p.value| >= 1 && f.value[..2] == "--" && p.value[..1] == "&"
            && f.value[2..] == p.value[1..]))
  {
    var f := CloneFlag(c, s => s);
    var p := DesktopParam(c);
    if f.Some? {
      SamePayload(f.value, p.value, c);
    }
  }

  lemma SamePayload(fv: string, pv: string, c: Constraint)
    requires CloneFlag(c, s => s) == Some(fv) && DesktopParam(c) == Some(pv)
    ensures |fv| >= 2 && |pv| >= 1 && fv[..2] == "--" && pv[..1] == "&" && fv[2..] == pv[1..]
  {
    if c.id in {0, 9, 10, 13, 14} {
      TextPayload(fv, pv, c);
    } else if c.id in {2, 3, 5, 6} {
      NumberPayload(fv, pv, c);
    } else {
      BarePayload(fv, pv, c);
    }
  }

  lemma TextPayload(fv: string, pv: string, c: Constraint)
    requires CloneFlag(c, s => s) == Some(fv) && DesktopParam(c) == Some(pv)
    requires c.id in {0, 9, 10, 13, 14}
    ensures |fv| >= 2 && |pv| >= 1 && fv[..2] == "--" && pv[..1] == "&" && fv[2..] == pv[1..]
  {
    if c.id == 0 {
      Payload("--contains=", "&contains=", c.text);
    } else if c.id == 9 {
      Payload("--user=", "&user=", c.text);
    } else if c.id == 10 {
      Payload("--group=", "&group=", c.text);
    } else if c.id == 13 {
      Payload("--notnamed=", "&notnamed=", c.text);
    } else {
      Payload("--regex=", "&regex=", c.text);
    }
  }

  lemma NumberPayload(fv: string, pv: string, c: Constraint)
    requires CloneFlag(c, s => s) == Some(fv) && DesktopParam(c) == Some(pv)
    requires c.id in {2, 3, 5, 6}
    ensures |fv| >= 2 && |pv| >= 1 && fv[..2] == "--" && pv[..1] == "&" && fv[2..] == pv[1..]
  {
    if c.id == 2 {
      Payload("--mtimeless=", "&mtimeless=", IntToDecimal(c.value));
    } else if c.id == 3 {
      Payload("--mtimemore=", "&mtimemore=", IntToDecimal(c.value));
    } else if c.id == 5 {
      Payload("--sizemore=", "&sizemore=", UnsignedDecimal(c.value));
    } else {
      Payload("--sizeless=", "&sizeless=", UnsignedDecimal(c.value));
    }
  }

  lemma BarePayload(fv: string, pv: string, c: Constraint)
    requires CloneFlag(c, s => s) == Some(fv) && DesktopParam(c) == Some(pv)
    requires c.id !in {0, 9, 10, 13, 14} && c.id !in {2, 3, 5, 6}
    ensures |fv| >= 2 && |pv| >= 1 && fv[..2] == "--" && pv[..1] == "&" && fv[2..] == pv[1..]
  {
  }

  lemma Payload(flag: string, param: string, v: string)
    requires |flag| >= 2 && |param| >= 1 && flag[..2] == "--" && param[..1] == "&" && flag[2..] == param[1..]
    ensures (flag + v)[..2] == "--" && (param + v)[..1] == "&" && (flag + v)[2..] == (param + v)[1..]
  {
    assert (flag + v)[2..] == flag[2..] + v;
    assert (param + v)[1..] == param[1..] + v;
  }

  /** `set_clone_command`: the slots filled in order, the rest left empty. */
  method SetCloneCommand(program: string, r: Request, escapeValues: bool, h: Helpers)
      returns (argv: array<Option<string>>, argc: nat)
    requires |CloneArgs(program, r, escapeValues, h)| <= MaximumPossible
    ensures fresh(argv) && argv.Length == MaximumPossible
    ensures argc == |CloneArgs(program, r, escapeValues, h)|
    ensures forall j :: 0 <= j < argc ==> argv[j] == Some(CloneArgs(program, r, escapeValues, h)[j])
    ensures forall j :: argc <= j < argv.Length ==> argv[j] == None
  {
    var q := Quoting(escapeValues, h);
    argv := new Option<string>[MaximumPossible](_ => None);
    var i := 0;
    argv[i] := Some(program);
    i := i + 1;
    argv[i] := Some("--named=" + q(r.nameEntry));
    i := i + 1;
    argv[i] := Some("--path=" + q(r.folder));
    i := i + 1;
    ghost var head := [program, "--named=" + q(r.nameEntry), "--path=" + q(r.folder)];
    ghost var flags: seq<string> := [];
    if r.panelVisible {
      flags := CloneFlags(r.constraints, q);
      i := AppendCloneFlags(argv, i, r.constraints, q);
    }
    assert head + flags == CloneArgs(program, r, escapeValues, h);
    argc := i;
  }

  /** The loop of `set_clone_command` over the constraints, from slot start on. */
  method AppendCloneFlags(argv: array<Option<string>>, start: nat, cs: seq<Constraint>, q: string -> string)
      returns (i: nat)
    requires start + |CloneFlags(cs, q)| <= argv.Length
    modifies argv
    ensures i == start + |CloneFlags(cs, q)|
    ensures forall j :: 0 <= j < start ==> argv[j] == old(argv[j])
    ensures forall j :: start <= j < i ==> argv[j] == Some(CloneFlags(cs, q)[j - start])
    ensures forall j :: i <= j < argv.Length ==> argv[j] == old(argv[j])
  {
    i := start;
    var k := 0;
    while k < |cs|
      invariant 0 <= k <= |cs|
      invariant i == start + |CloneFlags(cs[..k], q)| <= argv.Length
      invariant forall j :: 0 <= j < start ==> argv[j] == old(argv[j])
      invariant forall j :: start <= j < i ==> argv[j] == Some(CloneFlags(cs[..k], q)[j - start])
      invariant forall j :: i <= j < argv.Length ==> argv[j] == old(argv[j])
    {
      PrefixFlagsFit(cs, k + 1, q);
      FlagsStep(cs, k, q);
      var f := CloneFlag(cs[k], q);
      if f.Some? {
        argv[i] := f;
        i := i + 1;
      }
      k := k + 1;
    }
    assert cs[..k] == cs;
  }

  /** One more constraint adds its flag, if it has one. */
  lemma FlagsStep(cs: seq<Constraint>, k: nat, q: string -> string)
    requires k < |cs|
    ensures CloneFlags(cs[..k + 1], q)
      == CloneFlags(cs[..k], q) + (var f := CloneFlag(cs[k], q); if f.Some? then [f.value] else [])
  {
    assert cs[..k + 1][..k] == cs[..k];
  }

  lemma {:induction false} PrefixFlagsFit(cs: seq<Constraint>, k: nat, q: string -> string)
    requires k <= |cs|
    ensures |CloneFlags(cs[..k], q)| <= |CloneFlags(cs, q)|
    decreases |cs|
  {
    if k < |cs| {
      var init := cs[..|cs| - 1];
      assert init[..k] == cs[..k];
      PrefixFlagsFit(init, k, q);
    } else {
      assert cs[..k] == cs;
    }
  }

  /** `get_desktop_item_name`. */
  method GetDesktopItemName(r: Request) returns (name: string)
    ensures name == DesktopItemName(r)
  {
    var gs := DesktopTitle;
    gs := gs + " (";
    gs := gs + ("named=" + r.nameEntry);
    gs := gs + ("&path=" + r.folder);
    ghost var head := gs;
    ghost var params := "";
    if r.panelVisible {
      params := DesktopParams(r.constraints);
      gs := AppendDesktopParams(gs, r.constraints);
    }
    assert gs == head + params;
    name := gs + ")";
  }

  /** The loop of `get_desktop_item_name` over the constraints. */
  method AppendDesktopParams(start: string, cs: seq<Constraint>) returns (gs: string)
    ensures gs == start + DesktopParams(cs)
  {
    gs := start;
    var k := 0;
    while k < |cs|
      invariant 0 <= k <= |cs|
      invariant gs == start + DesktopParams(cs[..k])
    {
      ParamsStep(cs, k);
      var p := DesktopParam(cs[k]);
      if p.Some? {
        Associative(start, DesktopParams(cs[..k]), p.value);
        gs := gs + p.value;
      }
      k := k + 1;
    }
    assert cs[..k] == cs;
  }

  /** One more constraint adds its parameter, if it has one. */
  lemma ParamsStep(cs: seq<Constraint>, k: nat)
    requires k < |cs|
    ensures DesktopParams(cs[..k + 1])
      == DesktopParams(cs[..k]) + (var p := DesktopParam(cs[k]); if p.Some? then p.value else "")
  {
    assert cs[..k + 1][..k] == cs[..k];
  }
}
