/**
 * The Python string operations the core relies on, stated over `seq<char>`:
 * `startswith`, `endswith`, `find`, `in`, `replace`, `strip`, `lower`,
 * `splitlines`, `"\n".join` and `str(int)`.
 */
module Strings {
  import opened Wrappers

  predicate StartsWith(s: string, p: string) {
    |p| <= |s| && s[..|p|] == p
  }

  predicate EndsWith(s: string, p: string) {
    |p| <= |s| && s[|s| - |p|..] == p
  }

  predicate OccursAt(s: string, pat: string, i: nat) {
    i + |pat| <= |s| && s[i..i + |pat|] == pat
  }

  /** The first occurrence of `pat` at or after `i` (Python's `s.find(pat, i)`, None for -1). */
  function FindFrom(s: string, pat: string, i: nat): (r: Option<nat>)
    requires i <= |s|
    decreases |s| - i
    ensures r.Some? ==> i <= r.value && OccursAt(s, pat, r.value)
    ensures r.Some? ==> forall j :: i <= j < r.value ==> !OccursAt(s, pat, j)
    ensures r.None? ==> forall j :: i <= j <= |s| ==> !OccursAt(s, pat, j)
  {
    if OccursAt(s, pat, i) then Some(i)
    else if i == |s| then None
    else FindFrom(s, pat, i + 1)
  }

  function Find(s: string, pat: string): Option<nat> {
    FindFrom(s, pat, 0)
  }

  /** Python's `pat in s`. */
  predicate Contains(s: string, pat: string) {
    Find(s, pat).Some?
  }

  lemma ContainsIff(s: string, pat: string)
    ensures Contains(s, pat) <==> exists j :: 0 <= j <= |s| && OccursAt(s, pat, j)
  {
  }

  /** Python's `s.replace(pat, with)`: every non-overlapping occurrence, left to right. */
  function ReplaceAll(s: string, pat: string, with: string): string
    requires |pat| > 0
    decreases |s|
  {
    if |s| < |pat| then s
    else if s[..|pat|] == pat then with + ReplaceAll(s[|pat|..], pat, with)
    else [s[0]] + ReplaceAll(s[1..], pat, with)
  }

  /** Replacing one character by one character rewrites exactly its occurrences. */
  lemma {:induction false} ReplaceCharPointwise(s: string, c: char, d: char)
    ensures |ReplaceAll(s, [c], [d])| == |s|
    ensures forall i :: 0 <= i < |s| ==>
      ReplaceAll(s, [c], [d])[i] == (if s[i] == c then d else s[i])
  {
    if |s| > 0 {
      ReplaceCharPointwise(s[1..], c, d);
      var r := ReplaceAll(s, [c], [d]);
      var t := ReplaceAll(s[1..], [c], [d]);
      assert r == (if s[0] == c then [d] else [s[0]]) + t;
      forall i | 0 <= i < |s|
        ensures r[i] == (if s[i] == c then d else s[i])
      {
        if i > 0 { assert r[i] == t[i - 1]; }
      }
    }
  }

  /** A string shorter than the pattern can hold no occurrence and is left as it is. */
  lemma ReplaceAllKeepsShort(s: string, pat: string, with: string)
    requires 0 < |pat| && |s| < |pat|
    ensures ReplaceAll(s, pat, with) == s
  {
  }

  /** The characters for which Python's `str.isspace()` holds. */
  predicate IsSpace(c: char) {
    var n := c as int;
    (9 <= n <= 13) || (28 <= n <= 32) || n == 0x85 || n == 0xA0 || n == 0x1680
    || (0x2000 <= n <= 0x200A) || n == 0x2028 || n == 0x2029 || n == 0x202F
    || n == 0x205F || n == 0x3000
  }

  function TrimLeft(s: string): (r: string)
    ensures |r| <= |s| && r == s[|s| - |r|..]
    ensures r == [] || !IsSpace(r[0])
    ensures forall k :: 0 <= k < |s| - |r| ==> IsSpace(s[k])
    ensures (|s| > 0 && !IsSpace(s[0])) ==> r == s
  {
    if |s| > 0 && IsSpace(s[0]) then TrimLeft(s[1..]) else s
  }

  function TrimRight(s: string): (r: string)
    ensures |r| <= |s| && r == s[..|r|]
    ensures r == [] || !IsSpace(r[|r| - 1])
    ensures forall k :: |r| <= k < |s| ==> IsSpace(s[k])
    ensures (|s| > 0 && !IsSpace(s[|s| - 1])) ==> r == s
  {
    if |s| > 0 && IsSpace(s[|s| - 1]) then TrimRight(s[..|s| - 1]) else s
  }

  /** Python's `s.strip()`. */
  function Strip(s: string): (r: string)
    ensures |r| <= |s|
    ensures r == [] || (!IsSpace(r[0]) && !IsSpace(r[|r| - 1]))
    ensures (|s| > 0 && !IsSpace(s[0]) && !IsSpace(s[|s| - 1])) ==> r == s
  {
    TrimRight(TrimLeft(s))
  }

  /** `s.strip()` is `s` with exactly its leading and trailing whitespace cut off. */
  lemma StripTrims(s: string)
    ensures exists i, j ::
              && 0 <= i <= j <= |s| && Strip(s) == s[i..j]
              && (forall k :: 0 <= k < i ==> IsSpace(s[k]))
              && (forall k :: j <= k < |s| ==> IsSpace(s[k]))
  {
    var left := TrimLeft(s);
    var i := |s| - |left|;
    var j := i + |Strip(s)|;
    assert Strip(s) == left[..|Strip(s)|];
    assert left[..|Strip(s)|] == s[i..j];
    forall k | j <= k < |s| ensures IsSpace(s[k]) {
      assert s[k] == left[k - i];
    }
  }

  function LowerChar(c: char): char {
    if 'A' <= c <= 'Z' then (c as int + 32) as char else c
  }

  /** Python's `s.lower()` on the ASCII letters. */
  function Lower(s: string): (r: string)
    ensures |r| == |s|
  {
    seq(|s|, i requires 0 <= i < |s| => LowerChar(s[i]))
  }

  /** A string without upper-case ASCII letters is its own lower-case form. */
  lemma LowerKeepsLower(s: string)
    requires forall i :: 0 <= i < |s| ==> !('A' <= s[i] <= 'Z')
    ensures Lower(s) == s
  {
  }

  /** The line boundaries of Python's `str.splitlines()`. */
  predicate IsLineBreak(c: char) {
    var n := c as int;
    n == 10 || n == 11 || n == 12 || n == 13 || n == 28 || n == 29 || n == 30
    || n == 0x85 || n == 0x2028 || n == 0x2029
  }

  predicate NoLineBreak(s: string) {
    forall i :: 0 <= i < |s| ==> !IsLineBreak(s[i])
  }

  /** The index of the first line boundary at or after `i`, or `|s|` if there is none. */
  function FirstBreak(s: string, i: nat): (r: nat)
    requires i <= |s|
    decreases |s| - i
    ensures i <= r <= |s|
    ensures r < |s| ==> IsLineBreak(s[r])
    ensures forall j :: i <= j < r ==> !IsLineBreak(s[j])
  {
    if i == |s| || IsLineBreak(s[i]) then i else FirstBreak(s, i + 1)
  }

  /** Python's `s.splitlines()`: "\r\n" is one boundary, and a final boundary ends the last line. */
  function SplitLines(s: string): (r: seq<string>)
    decreases |s|
    ensures forall k :: 0 <= k < |r| ==> NoLineBreak(r[k])
    ensures s == [] <==> r == []
  {
    if s == [] then []
    else
      var i := FirstBreak(s, 0);
      if i == |s| then [s]
      else
        var w := if s[i] == '\r' && i + 1 < |s| && s[i + 1] == '\n' then 2 else 1;
        [s[..i]] + SplitLines(s[i + w..])
  }

  /** When a boundary at `k` is followed by unbroken text, that text is the last line. */
  lemma {:induction false} SplitLinesLast(s: string, k: nat)
    requires k + 1 < |s| && IsLineBreak(s[k])
    requires NoLineBreak(s[k + 1..])
    decreases |s|
    ensures |SplitLines(s)| > 0 && SplitLines(s)[|SplitLines(s)| - 1] == s[k + 1..]
  {
    var i, w := LastBreakStep(s, k);
    var rest := s[i + w..];
    if i + w == k + 1 {
      assert rest == s[k + 1..];
      SplitLinesOfUnbroken(rest);
    } else {
      assert rest[k - i - w + 1..] == s[k + 1..];
      assert rest[k - i - w] == s[k];
      SplitLinesLast(rest, k - i - w);
    }
    assert |SplitLines(s)| == 1 + |SplitLines(rest)|;
  }

  /** Before a boundary followed by unbroken text, the first line and its boundary end at or before that boundary. */
  lemma LastBreakStep(s: string, k: nat) returns (i: nat, w: nat)
    requires k + 1 < |s| && IsLineBreak(s[k])
    requires NoLineBreak(s[k + 1..])
    ensures 1 <= w && i + w <= k + 1
    ensures SplitLines(s) == [s[..i]] + SplitLines(s[i + w..])
  {
    i, w := SplitLinesStep(s, k);
    assert !IsLineBreak(s[k + 1]) by {
      assert s[k + 1..][0] == s[k + 1];
    }
  }

  /** The first line of `s` ends at its first boundary `i`, which is `w` characters wide. */
  lemma SplitLinesStep(s: string, k: nat) returns (i: nat, w: nat)
    requires k < |s| && IsLineBreak(s[k])
    ensures i <= k && 1 <= w <= 2 && i + w <= |s|
    ensures w == 2 ==> s[i + 1] == '\n'
    ensures SplitLines(s) == [s[..i]] + SplitLines(s[i + w..])
  {
    i := FirstBreak(s, 0);
    w := if s[i] == '\r' && i + 1 < |s| && s[i + 1] == '\n' then 2 else 1;
  }

  /** The text after the last newline, when it has no boundary of its own, is the last line. */
  lemma LastLineOf(pre: string, line: string)
    requires line != [] && NoLineBreak(line)
    ensures var lines := SplitLines(pre + "\n" + line); |lines| > 0 && lines[|lines| - 1] == line
  {
    var s := pre + "\n" + line;
    assert s[|pre|] == '\n';
    assert s[|pre| + 1..] == line;
    SplitLinesLast(s, |pre|);
  }

  /** A nonempty text without a boundary is a single line. */
  lemma SplitLinesOfUnbroken(s: string)
    requires s != [] && NoLineBreak(s)
    ensures SplitLines(s) == [s]
  {
    NoBreakFirst(s, 0);
  }

  lemma {:induction false} NoBreakFirst(s: string, i: nat)
    requires i <= |s| && NoLineBreak(s)
    decreases |s| - i
    ensures FirstBreak(s, i) == |s|
  {
    if i < |s| { NoBreakFirst(s, i + 1); }
  }

  /** Python's `sep.join(parts)`. */
  function Join(sep: string, parts: seq<string>): string {
    if |parts| == 0 then ""
    else if |parts| == 1 then parts[0]
    else parts[0] + sep + Join(sep, parts[1..])
  }

  /**
   * Joining break-free lines with "\n" and splitting the result again gives the
   * lines back, provided the last line is not empty (`"a\n".splitlines()` is `["a"]`).
   */
  lemma {:induction false} SplitLinesOfJoin(lines: seq<string>)
    requires forall k :: 0 <= k < |lines| ==> NoLineBreak(lines[k])
    requires lines != [] ==> lines[|lines| - 1] != []
    ensures SplitLines(Join("\n", lines)) == lines
  {
    if |lines| == 1 {
      NoBreakFirst(lines[0], 0);
    } else if |lines| > 1 {
      var head := lines[0];
      var rest := Join("\n", lines[1..]);
      var s := head + "\n" + rest;
      assert Join("\n", lines) == s;
      NoBreakPrefix(s, head);
      assert s[|head| + 1..] == rest;
      SplitLinesOfJoin(lines[1..]);
    }
  }

  /** The first line break of `head + "\n" + ...` ends `head`, when `head` has none. */
  lemma NoBreakPrefix(s: string, head: string)
    requires |head| < |s| && s[..|head|] == head && s[|head|] == '\n' && NoLineBreak(head)
    ensures FirstBreak(s, 0) == |head|
  {
  }

  function Digit(d: nat): char
    requires d < 10
  {
    "0123456789"[d]
  }

  /** Python's `str(n)` for a natural number. */
  function NatToString(n: nat): (r: string)
    ensures |r| > 0
    ensures |r| == 1 <==> n < 10
  {
    if n < 10 then [Digit(n)] else NatToString(n / 10) + [Digit(n % 10)]
  }

  /** Distinct numbers have distinct decimal spellings. */
  lemma {:induction false} NatToStringInjective(m: nat, n: nat)
    requires NatToString(m) == NatToString(n)
    ensures m == n
  {
    if m >= 10 && n >= 10 {
      var a, b := NatToString(m), NatToString(n);
      assert a[|a| - 1] == Digit(m % 10) && b[|b| - 1] == Digit(n % 10);
      assert m % 10 == n % 10;
      assert a[..|a| - 1] == NatToString(m / 10);
      assert b[..|b| - 1] == NatToString(n / 10);
      NatToStringInjective(m / 10, n / 10);
    }
  }
}
