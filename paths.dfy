/**
 * POSIX path operations: `os.path.splitext` (its extension half) and
 * `os.path.join`, and the substring test that skips virtual environments.
 */
module Paths {
  import opened Strings

  /** `s.rfind(c)`: the last index of `c`, or -1. */
  function RFind(s: string, c: char): (r: int)
    ensures -1 <= r < |s|
    ensures r >= 0 ==> s[r] == c
    ensures forall j :: r < j < |s| ==> s[j] != c
  {
    if s == [] then -1
    else if s[|s| - 1] == c then |s| - 1
    else RFind(s[..|s| - 1], c)
  }

  lemma {:induction false} RFindConcat(x: string, f: string, c: char)
    ensures RFind(x + f, c) == if RFind(f, c) >= 0 then |x| + RFind(f, c) else RFind(x, c)
  {
    if f == [] {
      assert x + f == x;
    } else {
      var s := x + f;
      if f[|f| - 1] != c {
        assert s[..|s| - 1] == x + f[..|f| - 1];
        RFindConcat(x, f[..|f| - 1], c);
      }
    }
  }

  predicate AllDots(p: string, lo: int, hi: int)
    requires 0 <= lo && hi <= |p|
  {
    forall k :: lo <= k < hi ==> p[k] == '.'
  }

  /**
   * The extension `os.path.splitext(p)` returns: from the last '.' of the last
   * path component, unless that component is only leading dots up to it.
   */
  function Ext(p: string): (e: string)
    ensures e == [] || (e[0] == '.' && EndsWith(p, e))
    ensures forall k :: 0 <= k < |e| ==> e[k] != '/'
    ensures forall k :: 1 <= k < |e| ==> e[k] != '.'
  {
    var sep := RFind(p, '/');
    var dot := RFind(p, '.');
    if dot > sep && !AllDots(p, sep + 1, dot) then p[dot..] else ""
  }

  /**
   * The extension is non-empty exactly when the path's last dot has, before
   * it in the same component, some character that is not a dot: `a.py` gives
   * `.py`, while `.bashrc`, `..` and `dir.d/file` give "". The extension then
   * runs from that last dot to the end.
   */
  lemma ExtNonEmpty(p: string)
    ensures Ext(p) != [] <==>
      exists d, k :: 0 <= k < d < |p| && p[d] == '.' && p[k] != '.' && p[k] != '/'
        && (forall j :: k < j < |p| ==> p[j] != '/')
        && (forall j :: d < j < |p| ==> p[j] != '.')
    ensures Ext(p) != [] ==> forall d :: 0 <= d < |p| && p[d] == '.' && (forall j :: d < j < |p| ==> p[j] != '.') ==> Ext(p) == p[d..]
  {
    var sep := RFind(p, '/');
    var dot := RFind(p, '.');
    if Ext(p) != [] {
      var k :| sep + 1 <= k < dot && p[k] != '.';
      assert 0 <= k < dot < |p| && p[dot] == '.' && p[k] != '.' && p[k] != '/'
        && (forall j :: k < j < |p| ==> p[j] != '/')
        && (forall j :: dot < j < |p| ==> p[j] != '.');
    }
    forall d, k | 0 <= k < d < |p| && p[d] == '.' && p[k] != '.' && p[k] != '/'
        && (forall j :: k < j < |p| ==> p[j] != '/')
        && (forall j :: d < j < |p| ==> p[j] != '.')
      ensures Ext(p) != []
    {
      assert dot == d;
      assert sep < k;
      assert !AllDots(p, sep + 1, dot);
    }
  }

  /** A path skipped as part of a virtual environment or a bytecode cache: a plain substring test. */
  predicate Excluded(p: string) {
    Contains(p, "venv") || Contains(p, "__pycache__")
  }

  /** `os.path.join(a, b)`. */
  function JoinPath(a: string, b: string): string {
    if StartsWith(b, "/") then b
    else if a == [] || EndsWith(a, "/") then a + b
    else a + "/" + b
  }

  /** The extension of a file joined under a directory is the file name's own. */
  lemma ExtOfJoin(a: string, f: string)
    requires f != [] && forall k :: 0 <= k < |f| ==> f[k] != '/'
    ensures Ext(JoinPath(a, f)) == Ext(f)
  {
    assert !StartsWith(f, "/") by { assert f[0] != '/'; }
    var x := if a == [] || EndsWith(a, "/") then a else a + "/";
    assert JoinPath(a, f) == x + f;
    ExtUnderDirectory(x, f);
  }

  lemma ExtUnderDirectory(x: string, f: string)
    requires x == [] || x[|x| - 1] == '/'
    requires f != [] && forall k :: 0 <= k < |f| ==> f[k] != '/'
    ensures Ext(x + f) == Ext(f)
  {
    var s := x + f;
    var df := RFind(f, '.');
    RFindConcat(x, f, '/');
    RFindConcat(x, f, '.');
    assert RFind(f, '/') == -1;
    var sep := RFind(s, '/');
    var dot := RFind(s, '.');
    assert sep == |x| - 1;
    if df >= 0 {
      assert dot == |x| + df;
      AllDotsShift(x, f, df);
      assert Ext(s) == if dot > sep && !AllDots(s, sep + 1, dot) then s[dot..] else "";
      assert Ext(f) == if df > -1 && !AllDots(f, 0, df) then f[df..] else "";
    } else {
      DotBeforeSeparator(x);
      assert dot <= sep;
      assert Ext(s) == "";
      assert Ext(f) == "";
    }
  }

  /** In a directory prefix ending in '/', any dot comes before that separator. */
  lemma DotBeforeSeparator(x: string)
    requires x == [] || x[|x| - 1] == '/'
    ensures RFind(x, '.') < |x| - 1 || x == []
  {
  }

  /** A run of dots within `f` is one within `x + f`, shifted by `|x|`. */
  lemma AllDotsShift(x: string, f: string, df: nat)
    requires df <= |f|
    ensures AllDots(x + f, |x|, |x| + df) <==> AllDots(f, 0, df)
    ensures (x + f)[|x| + df..] == f[df..]
  {
    assert forall k :: 0 <= k < df ==> (x + f)[|x| + k] == f[k];
  }
}
