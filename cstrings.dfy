/**
 * The small pieces of libc and GLib string handling that the search engine
 * relies on: prefix/suffix/substring tests, 32-bit C integers, `%d` and `%u`
 * decimal rendering, the `%d` conversion of `sscanf`, and
 * `g_path_get_basename`.
 */
module CStrings {
  import opened Wrappers

  const TwoTo31: int := 0x8000_0000
  const TwoTo32: int := 0x1_0000_0000

  /** The values of a C `int` (`gint`). */
  type Int32 = x: int | -0x8000_0000 <= x < 0x8000_0000

  predicate StartsWith(s: string, prefix: string) {
    |prefix| <= |s| && s[..|prefix|] == prefix
  }

  /** `file_extension_is`: the string ends with the given suffix. */
  predicate EndsWith(s: string, suffix: string) {
    |suffix| <= |s| && s[|s| - |suffix|..] == suffix
  }

  /** Concatenation regrouped; stated once so that proofs can ask for it. */
  lemma Associative(a: string, b: string, c: string)
    ensures a + b + c == a + (b + c)
  {
  }

  /** `strstr (s, sub) != NULL`. */
  predicate Contains(s: string, sub: string)
    decreases |s|
  {
    StartsWith(s, sub) || (s != [] && Contains(s[1..], sub))
  }

  /** Two's-complement truncation of an integer to a C `int`. */
  function Wrap32(x: int): (r: Int32)
    ensures (r - x) % TwoTo32 == 0
    ensures -TwoTo31 <= x < TwoTo31 ==> r == x
  {
    var m := x % TwoTo32;
    if m >= TwoTo31 then m - TwoTo32 else m
  }

  /** The number a C `int` shows when it is printed with `%u`. */
  function AsUnsigned(x: Int32): (r: nat)
    ensures r < TwoTo32 && (r - x) % TwoTo32 == 0
  {
    if x < 0 then x + TwoTo32 else x
  }

  predicate IsDigit(c: char) {
    '0' <= c <= '9'
  }

  predicate AllDigits(s: string) {
    forall i :: 0 <= i < |s| ==> IsDigit(s[i])
  }

  function DigitChar(d: nat): (c: char)
    requires d < 10
    ensures IsDigit(c)
  {
    ('0' as int + d) as char
  }

  function DigitValue(c: char): (d: nat)
    requires IsDigit(c)
    ensures d < 10
  {
    c as int - '0' as int
  }

  /** Decimal rendering of a natural number, most significant digit first. */
  function NatToDecimal(n: nat): (s: string)
    ensures |s| >= 1 && AllDigits(s)
    decreases n
  {
    if n < 10 then [DigitChar(n)] else NatToDecimal(n / 10) + [DigitChar(n % 10)]
  }

  /** `printf ("%d", x)`. */
  function IntToDecimal(x: int): (s: string)
    ensures s != [] && (x < 0 <==> s[0] == '-')
  {
    if x < 0 then "-" + NatToDecimal(-x) else NatToDecimal(x)
  }

  /** `printf ("%u", x)` for a C `int` x. */
  function UnsignedDecimal(x: Int32): (s: string)
    ensures s != [] && AllDigits(s)
  {
    NatToDecimal(AsUnsigned(x))
  }

  /** The value of a run of decimal digits. */
  function DigitsValue(ds: string): nat
    requires AllDigits(ds)
  {
    if ds == [] then 0 else DigitsValue(ds[..|ds| - 1]) * 10 + DigitValue(ds[|ds| - 1])
  }

  /** The longest run of decimal digits at the head of s. */
  function LeadingDigits(s: string): (ds: string)
    ensures |ds| <= |s| && ds == s[..|ds|] && AllDigits(ds)
    ensures |ds| < |s| ==> !IsDigit(s[|ds|])
  {
    if s != [] && IsDigit(s[0]) then [s[0]] + LeadingDigits(s[1..]) else []
  }

  /** The white space `scanf` skips before a numeric conversion. */
  predicate IsSpace(c: char) {
    c == ' ' || c == '\t' || c == '\n' || c == '\U{B}' || c == '\U{C}' || c == '\r'
  }

  function SkipSpace(s: string): (t: string)
    ensures |t| <= |s| && t == s[|s| - |t|..]
    ensures t != [] ==> !IsSpace(t[0])
  {
    if s != [] && IsSpace(s[0]) then SkipSpace(s[1..]) else s
  }

  /** The value of the digits at the head of t, None when there are none. */
  function ScanDigits(t: string): (r: Option<nat>)
    ensures r.Some? <==> t != [] && IsDigit(t[0])
  {
    var ds := LeadingDigits(t);
    if ds == [] then None else Some(DigitsValue(ds))
  }

  /**
   * `sscanf (s, "%d", &v)`: skip white space, accept an optional sign and
   * at least one digit. None when the conversion fails (`v` is then left as
   * it was). The value is not yet truncated to a C `int`.
   */
  function ScanDecimal(s: string): (r: Option<int>)
    ensures r.Some? && r.value < 0 ==> SkipSpace(s) != [] && SkipSpace(s)[0] == '-'
  {
    var t := SkipSpace(s);
    if t != [] && (t[0] == '-' || t[0] == '+') then
      match ScanDigits(t[1..])
      case None => None
      case Some(v) => Some(if t[0] == '-' then -(v as int) else v)
    else
      match ScanDigits(t)
      case None => None
      case Some(v) => Some(v)
  }

  lemma {:induction false} LeadingDigitsOfDigits(s: string)
    requires AllDigits(s)
    ensures LeadingDigits(s) == s
  {
    if s != [] {
      LeadingDigitsOfDigits(s[1..]);
    }
  }

  lemma {:induction false} NatToDecimalValue(n: nat)
    ensures DigitsValue(NatToDecimal(n)) == n
    decreases n
  {
    if n >= 10 {
      var s := NatToDecimal(n);
      assert s[..|s| - 1] == NatToDecimal(n / 10);
      NatToDecimalValue(n / 10);
    }
  }

  lemma NatRoundTrip(n: nat)
    ensures ScanDecimal(NatToDecimal(n)) == Some(n)
  {
    var s := NatToDecimal(n);
    assert !IsSpace(s[0]) && s[0] != '-' && s[0] != '+';
    assert SkipSpace(s) == s;
    LeadingDigitsOfDigits(s);
    NatToDecimalValue(n);
    assert ScanDigits(s) == Some(n);
  }

  /** What `printf ("%d")` writes, `sscanf ("%d")` reads back. */
  lemma DecimalRoundTrip(x: int)
    ensures ScanDecimal(IntToDecimal(x)) == Some(x)
  {
    if x < 0 {
      NegativeDecimalRoundTrip(x);
    } else {
      NatRoundTrip(x);
    }
  }

  lemma NegativeDecimalRoundTrip(x: int)
    requires x < 0
    ensures ScanDecimal(IntToDecimal(x)).Some?
    ensures ScanDecimal(IntToDecimal(x)).value == x
  {
    var n: nat := -x;
    var ds := NatToDecimal(n);
    assert IntToDecimal(x) == "-" + ds;
    NatToDecimalValue(n);
    var v := DigitsValue(ds);
    assert v == n;
    NegativeRoundTrip(ds);
  }

  lemma NegativeRoundTrip(ds: string)
    requires ds != [] && AllDigits(ds)
    ensures ScanDecimal("-" + ds).Some?
    ensures ScanDecimal("-" + ds).value == -(DigitsValue(ds) as int)
  {
    var s := "-" + ds;
    assert s[0] == '-' && !IsSpace(s[0]);
    assert SkipSpace(s) == s;
    assert s[1..] == ds;
    LeadingDigitsOfDigits(ds);
    assert ScanDigits(s[1..]) == Some(DigitsValue(ds));
  }

  /**
   * What `printf ("%u")` writes for a C `int`, `sscanf ("%d")` reads back
   * as the same `int` once it is stored into one.
   */
  lemma UnsignedRoundTrip(x: Int32)
    ensures ScanDecimal(UnsignedDecimal(x)).Some?
    ensures Wrap32(ScanDecimal(UnsignedDecimal(x)).value) == x
  {
    var u := AsUnsigned(x);
    NatRoundTrip(u);
    if x < 0 {
      assert u == x + TwoTo32;
      assert u % TwoTo32 == u;
      assert Wrap32(u) == u - TwoTo32;
    } else {
      assert Wrap32(u) == u;
    }
  }

  function StripTrailingSlashes(s: string): (t: string)
    ensures |t| <= |s| && t == s[..|t|]
    ensures t == [] || t[|t| - 1] != '/'
  {
    if s != [] && s[|s| - 1] == '/' then StripTrailingSlashes(s[..|s| - 1]) else s
  }

  /** The characters after the last '/'. */
  function AfterLastSlash(s: string): (t: string)
    ensures |t| <= |s| && t == s[|s| - |t|..]
    ensures '/' !in t
  {
    if s == [] || s[|s| - 1] == '/' then [] else AfterLastSlash(s[..|s| - 1]) + [s[|s| - 1]]
  }

  /**
   * `g_path_get_basename`: "." for the empty path, "/" for a path made of
   * separators only, otherwise the last component once trailing separators
   * are dropped.
   */
  function Basename(path: string): (b: string)
    ensures b != []
    ensures b == "/" || '/' !in b
  {
    if path == [] then "."
    else
      var t := StripTrailingSlashes(path);
      if t == [] then "/"
      else
        var b := AfterLastSlash(t);
        assert b != [] by { assert t[|t| - 1] != '/'; }
        b
  }

  lemma {:induction false} AfterLastSlashOfChild(dir: string, name: string)
    requires dir == [] || dir[|dir| - 1] == '/'
    requires '/' !in name
    ensures AfterLastSlash(dir + name) == name
    decreases |name|
  {
    if name == [] {
      assert dir + name == dir;
    } else {
      var n := |name|;
      var init := name[..n - 1];
      var p := dir + name;
      assert p[..|p| - 1] == dir + init;
      assert p[|p| - 1] == name[n - 1];
      assert name[n - 1] in name;
      assert '/' !in init by {
        forall i | 0 <= i < |init| ensures init[i] != '/' {
          assert init[i] == name[i];
        }
      }
      assert p != [] && p[|p| - 1] != '/';
      assert AfterLastSlash(p) == AfterLastSlash(dir + init) + [name[n - 1]];
      AfterLastSlashOfChild(dir, init);
      assert init + [name[n - 1]] == name;
    }
  }

  /** The base name of `dir/name` is `name`. */
  lemma BasenameOfChild(dir: string, name: string)
    requires dir == [] || dir[|dir| - 1] == '/'
    requires name != [] && '/' !in name
    ensures Basename(dir + name) == name
  {
    var p := dir + name;
    assert p[|p| - 1] == name[|name| - 1];
    assert name[|name| - 1] in name;
    assert StripTrailingSlashes(p) == p;
    AfterLastSlashOfChild(dir, name);
  }
}
