/**
 * The shell pattern notation of `fnmatch` (IEEE Std 1003.1, XCU section
 * 2.13). The result filter calls it with `FNM_NOESCAPE | FNM_CASEFOLD`: a
 * backslash is an ordinary character, letters compare without regard to
 * case, and neither `/` nor a leading `.` is special. `find -name` compares
 * case exactly, and a `find` that hides dotfiles from wildcards
 * additionally requires a leading `.` of a name to be matched by a `.` of
 * the pattern; the name clause of the command is written for that reading.
 */
module Glob {
  import opened Wrappers

  /** ASCII case folding, as `FNM_CASEFOLD` applies it to both sides. */
  function FoldCase(c: char): (d: char)
    ensures 'A' <= c <= 'Z' ==> d as int == c as int + 32
    ensures !('A' <= c <= 'Z') ==> d == c
  {
    if 'A' <= c <= 'Z' then (c as int + 32) as char else c
  }

  /** A character that means something in a pattern. */
  predicate IsSpecial(c: char) {
    c == '*' || c == '?' || c == '['
  }

  /** A pattern made of ordinary characters only. */
  predicate IsLiteral(p: string) {
    forall i :: 0 <= i < |p| ==> !IsSpecial(p[i])
  }

  /** Character comparison, folded or exact. */
  function Norm(c: char, fold: bool): char {
    if fold then FoldCase(c) else c
  }

  /** Two strings equal, once both are case folded when fold is set. */
  predicate SameChars(a: string, b: string, fold: bool) {
    |a| == |b| && forall i :: 0 <= i < |a| ==> Norm(a[i], fold) == Norm(b[i], fold)
  }

  /** The first `]` at or after index i. */
  function FindClose(p: string, i: nat): (k: Option<nat>)
    ensures k.Some? ==> i <= k.value < |p| && p[k.value] == ']'
    ensures k.Some? ==> forall j :: i <= j < k.value ==> p[j] != ']'
    ensures k.None? ==> forall j :: i <= j < |p| ==> p[j] != ']'
    decreases |p| - i
  {
    if i >= |p| then None
    else if p[i] == ']' then Some(i)
    else FindClose(p, i + 1)
  }

  /**
   * A bracket expression `[...]` at the head of a pattern: whether it is
   * negated by `!` or `^`, its body, and the pattern after the closing `]`.
   */
  datatype Bracket = Bracket(negated: bool, body: string, rest: string)

  /**
   * None when the `[` has no closing `]`, in which case it stands for
   * itself. A `]` right after the opening (or after the negation mark)
   * belongs to the body.
   */
  function ParseBracket(p: string): (b: Option<Bracket>)
    requires p != [] && p[0] == '['
    ensures b.Some? ==> |b.value.body| >= 1 && |b.value.rest| < |p| - |b.value.body|
    ensures b.Some? ==> (b.value.negated <==> |p| > 1 && (p[1] == '!' || p[1] == '^'))
  {
    var start := if |p| > 1 && (p[1] == '!' || p[1] == '^') then 2 else 1;
    if start >= |p| then None
    else
      match FindClose(p, start + 1)
      case None => None
      case Some(k) => Some(Bracket(start == 2, p[start..k], p[k + 1..]))
  }

  /** The body of a bracket expression admits c: a listed character or a range `a-z`. */
  predicate InBody(body: string, c: char, fold: bool)
    decreases |body|
  {
    if body == [] then false
    else if |body| >= 3 && body[1] == '-' then
      (Norm(body[0], fold) <= Norm(c, fold) <= Norm(body[2], fold)) || InBody(body[3..], c, fold)
    else
      Norm(body[0], fold) == Norm(c, fold) || InBody(body[1..], c, fold)
  }

  /** `fnmatch (p, s, FNM_NOESCAPE | (fold ? FNM_CASEFOLD : 0)) != FNM_NOMATCH`. */
  predicate Match(p: string, s: string, fold: bool)
    decreases |p| + |s|
  {
    if p == [] then s == []
    else if p[0] == '*' then Match(p[1..], s, fold) || (s != [] && Match(p, s[1..], fold))
    else if s == [] then false
    else if p[0] == '?' then Match(p[1..], s[1..], fold)
    else if p[0] == '[' && ParseBracket(p).Some? then
      var b := ParseBracket(p).value;
      (b.negated != InBody(b.body, s[0], fold)) && Match(b.rest, s[1..], fold)
    else Norm(p[0], fold) == Norm(s[0], fold) && Match(p[1..], s[1..], fold)
  }

  /** The call the result filter makes: `FNM_NOESCAPE | FNM_CASEFOLD`. */
  predicate FnMatch(p: string, s: string) {
    Match(p, s, true)
  }

  /**
   * A `find -name` that keeps wildcards off dotfiles: a name beginning
   * with `.` is matched only by a pattern beginning with `.`.
   */
  predicate FindNameMatch(p: string, s: string) {
    if s != [] && s[0] == '.' then p != [] && p[0] == '.' && Match(p[1..], s[1..], false)
    else Match(p, s, false)
  }

  /** `*` matches every name. */
  lemma {:induction false} StarMatchesAll(s: string, fold: bool)
    ensures Match("*", s, fold)
    decreases |s|
  {
    var p := "*";
    assert p[1..] == [];
    if s != [] {
      StarMatchesAll(s[1..], fold);
    }
  }

  /** A leading `*` absorbs any prefix. */
  lemma {:induction false} StarAbsorbsPrefix(p: string, u: string, s: string, fold: bool)
    requires Match(p, s, fold)
    ensures Match("*" + p, u + s, fold)
    decreases |u|
  {
    var q := "*" + p;
    assert q[1..] == p;
    if u == [] {
      assert u + s == s;
    } else {
      StarAbsorbsPrefix(p, u[1..], s, fold);
      assert (u + s)[1..] == u[1..] + s;
    }
  }

  /** A literal pattern matches exactly the names equal to it up to case. */
  lemma {:induction false} LiteralMatchIff(p: string, s: string, fold: bool)
    requires IsLiteral(p)
    ensures Match(p, s, fold) <==> SameChars(p, s, fold)
    decreases |p|
  {
    if p != [] && s != [] {
      assert IsLiteral(p[1..]) by {
        forall i | 0 <= i < |p[1..]| ensures !IsSpecial(p[1..][i]) {
          assert p[1..][i] == p[i + 1];
        }
      }
      assert !IsSpecial(p[0]);
      LiteralMatchIff(p[1..], s[1..], fold);
      if SameChars(p, s, fold) {
        assert SameChars(p[1..], s[1..], fold) by {
          forall i | 0 <= i < |p[1..]| ensures Norm(p[1..][i], fold) == Norm(s[1..][i], fold) {
            assert p[1..][i] == p[i + 1] && s[1..][i] == s[i + 1];
          }
        }
      }
      if Norm(p[0], fold) == Norm(s[0], fold) && SameChars(p[1..], s[1..], fold) {
        forall i | 0 <= i < |p| ensures Norm(p[i], fold) == Norm(s[i], fold) {
          if i > 0 {
            assert p[1..][i - 1] == p[i] && s[1..][i - 1] == s[i];
          }
        }
      }
    } else if p != [] {
      assert !IsSpecial(p[0]);
    }
  }

  /** A literal pattern followed by `*` matches every name it begins. */
  lemma {:induction false} LiteralThenStar(x: string, v: string, fold: bool)
    requires IsLiteral(x)
    ensures Match(x + "*", x + v, fold)
    decreases |x|
  {
    if x == [] {
      assert x + "*" == "*" && x + v == v;
      StarMatchesAll(v, fold);
    } else {
      assert !IsSpecial(x[0]);
      assert IsLiteral(x[1..]) by {
        forall i | 0 <= i < |x[1..]| ensures !IsSpecial(x[1..][i]) {
          assert x[1..][i] == x[i + 1];
        }
      }
      LiteralThenStar(x[1..], v, fold);
      assert (x + "*")[1..] == x[1..] + "*";
      assert (x + v)[1..] == x[1..] + v;
    }
  }

  /** `*x*` with a literal x matches every name that contains x. */
  lemma SubstringMatches(u: string, x: string, v: string, fold: bool)
    requires IsLiteral(x)
    ensures Match("*" + x + "*", u + x + v, fold)
  {
    LiteralThenStar(x, v, fold);
    StarAbsorbsPrefix(x + "*", u, x + v, fold);
    assert "*" + (x + "*") == "*" + x + "*";
    assert u + (x + v) == u + x + v;
  }
}
