/** List comprehensions with a condition. */
module Seqs {

  /** `[x for x in s if p(x)]`. */
  function Filter<T>(s: seq<T>, p: T -> bool): (r: seq<T>)
    ensures |r| <= |s|
    ensures forall k :: 0 <= k < |r| ==> r[k] in s && p(r[k])
    ensures forall k :: 0 <= k < |s| && p(s[k]) ==> s[k] in r
  {
    if s == [] then []
    else (if p(s[0]) then [s[0]] else []) + Filter(s[1..], p)
  }

  /** Filtering distributes over concatenation: the kept elements keep their order. */
  lemma {:induction false} FilterConcat<T>(a: seq<T>, b: seq<T>, p: T -> bool)
    ensures Filter(a + b, p) == Filter(a, p) + Filter(b, p)
  {
    if a == [] {
      assert a + b == b;
    } else {
      assert (a + b)[1..] == a[1..] + b;
      FilterConcat(a[1..], b, p);
    }
  }

  lemma FilterSnoc<T>(a: seq<T>, x: T, p: T -> bool)
    ensures Filter(a + [x], p) == Filter(a, p) + (if p(x) then [x] else [])
  {
    FilterConcat(a, [x], p);
  }

  /** `[f(x) for x in s if p(x)]`, built from the end as a loop appending to a list does. */
  function FilterMap<T, U>(s: seq<T>, p: T -> bool, f: T -> U): (r: seq<U>)
    ensures |r| <= |s|
  {
    if s == [] then []
    else FilterMap(s[..|s| - 1], p, f) + (if p(s[|s| - 1]) then [f(s[|s| - 1])] else [])
  }

  lemma {:induction false} FilterMapMember<T, U>(s: seq<T>, p: T -> bool, f: T -> U, y: U)
    ensures y in FilterMap(s, p, f) <==> exists k :: 0 <= k < |s| && p(s[k]) && y == f(s[k])
  {
    if s != [] {
      var init := s[..|s| - 1];
      FilterMapMember(init, p, f, y);
      if exists k :: 0 <= k < |init| && p(init[k]) && y == f(init[k]) {
        var k :| 0 <= k < |init| && p(init[k]) && y == f(init[k]);
        assert s[k] == init[k];
      }
      if exists k :: 0 <= k < |s| && p(s[k]) && y == f(s[k]) {
        var k :| 0 <= k < |s| && p(s[k]) && y == f(s[k]);
        if k < |init| {
          assert init[k] == s[k];
        }
      }
    }
  }

  lemma {:induction false} FilterMapLength<T, U>(s: seq<T>, p: T -> bool, f: T -> U)
    ensures |FilterMap(s, p, f)| == |Filter(s, p)|
  {
    if s != [] {
      var init := s[..|s| - 1];
      assert s == init + [s[|s| - 1]];
      FilterSnoc(init, s[|s| - 1], p);
      FilterMapLength(init, p, f);
    }
  }
}
