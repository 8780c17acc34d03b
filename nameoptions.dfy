/**
 * The name clause of a constraint-composed `find` command
 * (`setup_find_name_options`): one `-name`/`-iname` test, or a
 * parenthesised disjunction of two or three, chosen so that dotfiles are
 * found even by a `find` whose wildcards do not match a leading `.`.
 */
module NameOptions {
  import opened CStrings
  import opened Glob

  /** `OPT 'a'`, one name test. */
  function Term(opt: string, a: string): (t: string)
    ensures StartsWith(t, opt + " '") && EndsWith(t, "'")
  {
    var t := opt + " '" + a + "'";
    assert t[..|opt + " '"|] == opt + " '";
    t
  }

  /** Name tests joined by ` -o `. */
  function JoinOr(opt: string, alts: seq<string>): (r: string)
    requires |alts| >= 1
    ensures StartsWith(r, Term(opt, alts[0]))
    decreases |alts|
  {
    if |alts| == 1 then Term(opt, alts[0])
    else
      var r := Term(opt, alts[0]) + " -o " + JoinOr(opt, alts[1..]);
      assert r[..|Term(opt, alts[0])|] == Term(opt, alts[0]);
      r
  }

  /**
   * The clause for a list of alternative patterns: a single test when
   * there is one, a parenthesised disjunction otherwise; a space follows.
   */
  function RenderNameClause(opt: string, alts: seq<string>): (r: string)
    requires |alts| >= 1
    ensures EndsWith(r, " ")
    ensures |alts| == 1 ==> r == Term(opt, alts[0]) + " "
    ensures |alts| > 1 ==> StartsWith(r, "\\( " + Term(opt, alts[0]))
  {
    if |alts| == 1 then Term(opt, alts[0]) + " "
    else
      var r := "\\( " + JoinOr(opt, alts) + " \\) ";
      assert r[..|"\\( " + Term(opt, alts[0])|] == "\\( " + Term(opt, alts[0]);
      r
  }

  /**
   * The patterns the clause tries for the (escaped) name f, in order.
   * Without `*`: `*f*`, `.*f*`, and `f*` when f begins with `.`. With `*`:
   * f alone when it begins with neither `.` nor `*`; f and `.*f` when it
   * begins with `.`; when it begins with `*`, f and f without its `*` if a
   * `.` follows, f and `.f` otherwise.
   */
  function NameAlternatives(f: string): (alts: seq<string>)
    ensures 1 <= |alts| <= 3
    ensures alts[0] == if '*' in f then f else "*" + f + "*"
    ensures forall i :: 1 <= i < |alts| ==> alts[i] != [] && alts[i][0] == '.'
    ensures |alts| == 1 <==> '*' in f && f[0] != '.' && f[0] != '*'
    ensures |alts| == 3 <==> '*' !in f && f != [] && f[0] == '.'
    ensures '*' !in f ==> alts[1] == ".*" + f + "*" && (|alts| == 3 ==> alts[2] == f + "*")
    ensures '*' in f && f[0] == '.' ==> alts == [f, ".*" + f]
    ensures '*' in f && f[0] == '*' && |f| >= 2 && f[1] == '.' ==> alts == [f, f[1..]]
    ensures '*' in f && f[0] == '*' && !(|f| >= 2 && f[1] == '.') ==> alts == [f, "." + f]
  {
    if '*' !in f then
      if |f| == 0 || f[0] != '.' then ["*" + f + "*", ".*" + f + "*"]
      else ["*" + f + "*", ".*" + f + "*", f + "*"]
    else if f[0] == '.' then [f, ".*" + f]
    else if f[0] != '*' then [f]
    else if |f| >= 2 && f[1] == '.' then [f, f[1..]]
    else [f, "." + f]
  }

  /**
   * `setup_find_name_options (filename)` with the probed name option; each
   * `%s '%s'` of the format strings is one `Term`.
   */
  function SetupFindNameOptions(opt: string, f: string): string {
    if '*' !in f then
      if |f| == 0 || f[0] != '.' then
        "\\( " + Term(opt, "*" + f + "*") + " -o " + Term(opt, ".*" + f + "*") + " \\) "
      else
        "\\( " + Term(opt, "*" + f + "*") + " -o " + Term(opt, ".*" + f + "*") + " -o "
          + Term(opt, f + "*") + " \\) "
    else if f[0] == '.' then
      "\\( " + Term(opt, f) + " -o " + Term(opt, ".*" + f) + " \\) "
    else if f[0] != '*' then
      Term(opt, f) + " "
    else if |f| >= 2 && f[1] == '.' then
      "\\( " + Term(opt, f) + " -o " + Term(opt, f[1..]) + " \\) "
    else
      "\\( " + Term(opt, f) + " -o " + Term(opt, "." + f) + " \\) "
  }

  lemma RenderTwo(opt: string, a: string, b: string)
    ensures RenderNameClause(opt, [a, b]) == "\\( " + Term(opt, a) + " -o " + Term(opt, b) + " \\) "
  {
    var alts := [a, b];
    var ta, tb := Term(opt, a), Term(opt, b);
    var open, or := "\\( ", " -o ";
    assert alts[1..] == [b];
    assert JoinOr(opt, alts) == ta + or + tb;
    Associative(open, ta + or, tb);
    Associative(open, ta, or);
  }

  lemma RenderThree(opt: string, a: string, b: string, c: string)
    ensures RenderNameClause(opt, [a, b, c])
      == "\\( " + Term(opt, a) + " -o " + Term(opt, b) + " -o " + Term(opt, c) + " \\) "
  {
    var alts := [a, b, c];
    var ta, tb, tc := Term(opt, a), Term(opt, b), Term(opt, c);
    var open, or := "\\( ", " -o ";
    assert alts[1..] == [b, c];
    assert [b, c][1..] == [c];
    var rest := tb + or + tc;
    assert JoinOr(opt, [b, c]) == rest;
    assert JoinOr(opt, alts) == ta + or + rest;
    Associative(open, ta + or, rest);
    Associative(open, ta, or);
    var left := open + ta + or;
    Associative(left, tb + or, tc);
    Associative(left, tb, or);
  }

  /** The command text is the rendering of the alternatives, in order. */
  lemma SetupFindNameOptionsRenders(opt: string, f: string)
    ensures SetupFindNameOptions(opt, f) == RenderNameClause(opt, NameAlternatives(f))
  {
    if '*' !in f {
      if |f| == 0 || f[0] != '.' {
        RenderTwo(opt, "*" + f + "*", ".*" + f + "*");
      } else {
        RenderThree(opt, "*" + f + "*", ".*" + f + "*", f + "*");
      }
    } else if f[0] == '.' {
      RenderTwo(opt, f, ".*" + f);
    } else if f[0] == '*' {
      if |f| >= 2 && f[1] == '.' {
        RenderTwo(opt, f, f[1..]);
      } else {
        RenderTwo(opt, f, "." + f);
      }
    }
  }

  /**
   * For an argument without `*`, every file whose name contains it is
   * found, dotfiles included, even with wildcards kept off leading dots.
   * `build_search_command` never passes such an argument: it wraps every
   * entry without `*` as `*entry*` first, so a typed name takes the
   * branches for a pattern with `*`.
   */
  lemma PlainNameFindsContaining(f: string, u: string, v: string)
    requires IsLiteral(f)
    ensures var alts := NameAlternatives(f);
      exists i :: 0 <= i < |alts| && FindNameMatch(alts[i], u + f + v)
  {
    assert '*' !in f;
    var alts := NameAlternatives(f);
    var n := u + f + v;
    if n == [] || n[0] != '.' {
      SubstringMatches(u, f, v, false);
      assert FindNameMatch(alts[0], n);
    } else if u != [] || f == [] {
      HiddenContainingFound(f, u, v);
      assert FindNameMatch(alts[1], n);
    } else {
      assert n == f + v && f[0] == '.';
      HiddenStartingFound(f, v);
      assert FindNameMatch(alts[2], n);
    }
  }

  /** `.*f*` finds a dotfile that contains f after its leading `.`. */
  lemma HiddenContainingFound(f: string, u: string, v: string)
    requires IsLiteral(f)
    requires var n := u + f + v; n != [] && n[0] == '.' && (u != [] || f == [])
    ensures FindNameMatch(".*" + f + "*", u + f + v)
  {
    var n := u + f + v;
    var p := ".*" + f + "*";
    assert p[1..] == "*" + f + "*";
    if u != [] {
      assert n[1..] == u[1..] + f + v;
      SubstringMatches(u[1..], f, v, false);
    } else {
      assert n == v;
      SubstringMatches(v[1..], [], [], false);
      assert v[1..] + [] + [] == v[1..];
      assert f == [];
    }
  }

  /** `f*` finds a dotfile that starts with an argument f (without `*`) that itself starts with `.`. */
  lemma HiddenStartingFound(f: string, v: string)
    requires IsLiteral(f) && f != [] && f[0] == '.'
    ensures FindNameMatch(f + "*", f + v)
  {
    var n := f + v;
    LiteralPrefix(f);
    LiteralThenStar(f[1..], v, false);
    assert (f + "*")[1..] == f[1..] + "*";
    assert n[1..] == f[1..] + v;
  }

  /**
   * For a typed name x that does not begin with `.`, the wrapped pattern
   * `*x*` finds every file whose name contains x, dotfiles included.
   */
  lemma WrappedNameFindsContaining(x: string, u: string, v: string)
    requires IsLiteral(x) && (x == [] || x[0] != '.')
    ensures var alts := NameAlternatives("*" + x + "*");
      exists i :: 0 <= i < |alts| && FindNameMatch(alts[i], u + x + v)
  {
    var f := "*" + x + "*";
    assert f[0] == '*' && '*' in f;
    assert f[1] != '.' by {
      if x == [] { assert f == "**"; } else { assert f[1] == x[0]; }
    }
    var alts := NameAlternatives(f);
    assert alts == [f, "." + f];
    var n := u + x + v;
    if n == [] || n[0] != '.' {
      SubstringMatches(u, x, v, false);
      assert FindNameMatch(alts[0], n);
    } else if u != [] {
      assert n[1..] == u[1..] + x + v;
      SubstringMatches(u[1..], x, v, false);
      assert alts[1][1..] == f;
      assert FindNameMatch(alts[1], n);
    } else {
      assert x == [];
      assert n == v;
      SubstringMatches(v[1..], [], [], false);
      assert v[1..] + [] + [] == v[1..];
      assert f == "*" + [] + "*";
      assert alts[1][1..] == f;
      assert FindNameMatch(alts[1], n);
    }
  }

  /**
   * For a typed name x that begins with `.`, the clause finds the names
   * that contain x and do not begin with `.`, and the names that begin
   * with x.
   */
  lemma WrappedDotNameFinds(x: string, u: string, v: string)
    requires IsLiteral(x) && x != [] && x[0] == '.'
    requires u == [] || u[0] != '.'
    ensures var alts := NameAlternatives("*" + x + "*");
      exists i :: 0 <= i < |alts| && FindNameMatch(alts[i], u + x + v)
  {
    var f := "*" + x + "*";
    assert f[0] == '*' && '*' in f && f[1] == '.';
    var alts := NameAlternatives(f);
    assert f[1..] == x + "*";
    assert alts == [f, x + "*"];
    var n := u + x + v;
    if u != [] {
      SubstringMatches(u, x, v, false);
      assert FindNameMatch(alts[0], n);
    } else {
      assert n == x + v;
      LiteralPrefix(x);
      LiteralThenStar(x[1..], v, false);
      assert alts[1][1..] == x[1..] + "*";
      assert n[1..] == x[1..] + v;
      assert FindNameMatch(alts[1], n);
    }
  }

  /**
   * A dotfile that contains a typed `.c` further in, such as `.a.c`, is
   * not found by `*.c*` nor `.c*` when wildcards are kept off leading dots.
   */
  lemma WrappedDotNameMissesInnerHidden()
    ensures var alts := NameAlternatives("*.c*");
      forall i :: 0 <= i < |alts| ==> !FindNameMatch(alts[i], ".a.c")
  {
    var alts := NameAlternatives("*.c*");
    assert "*.c*"[1] == '.';
    assert alts == ["*.c*", ".c*"];
    var s := ".a.c";
    assert s[1..] == "a.c";
    var p := ".c*";
    assert p[1..] == "c*";
    assert !Match("c*", "a.c", false);
  }

  lemma LiteralPrefix(x: string)
    requires IsLiteral(x) && x != []
    ensures IsLiteral(x[1..])
  {
    forall i | 0 <= i < |x[1..]| ensures !IsSpecial(x[1..][i]) {
      assert x[1..][i] == x[i + 1];
    }
  }
}
