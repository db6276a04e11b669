/** Order-preserving selection from a sequence, as a database WHERE clause returns rows. */
module Sequences {

  /** The elements of `s` that satisfy `p`, in the order of `s`. */
  function Filter<T>(s: seq<T>, p: T -> bool): (r: seq<T>)
    ensures |r| <= |s|
    ensures forall i :: 0 <= i < |r| ==> p(r[i])
  {
    if s == [] then [] else (if p(s[0]) then [s[0]] else []) + Filter(s[1..], p)
  }

  /** Selection only drops elements. */
  lemma {:induction false} FilterSubset<T>(s: seq<T>, p: T -> bool)
    ensures multiset(Filter(s, p)) <= multiset(s)
  {
    if s != [] {
      assert s == [s[0]] + s[1..];
      FilterSubset(s[1..], p);
    }
  }

  /** Selection keeps every copy of an element that satisfies `p`, and no other element. */
  lemma {:induction false} FilterCount<T>(s: seq<T>, p: T -> bool, x: T)
    ensures multiset(Filter(s, p))[x] == if p(x) then multiset(s)[x] else 0
  {
    if s != [] {
      assert s == [s[0]] + s[1..];
      FilterCount(s[1..], p, x);
    }
  }

  lemma {:induction false} FilterAppend<T>(a: seq<T>, b: seq<T>, p: T -> bool)
    ensures Filter(a + b, p) == Filter(a, p) + Filter(b, p)
  {
    if a == [] {
      assert a + b == b;
    } else {
      assert (a + b)[0] == a[0];
      assert (a + b)[1..] == a[1..] + b;
      FilterAppend(a[1..], b, p);
    }
  }

  lemma FilterSingle<T>(x: T, p: T -> bool)
    ensures Filter([x], p) == if p(x) then [x] else []
  {
    assert [x][1..] == [];
  }

  lemma {:induction false} FilterKeepsAll<T>(s: seq<T>, p: T -> bool)
    requires forall i :: 0 <= i < |s| ==> p(s[i])
    ensures Filter(s, p) == s
  {
    if s != [] {
      FilterKeepsAll(s[1..], p);
    }
  }

  /** An element of `s` with the largest score; of several, the earliest. */
  function ArgMax<T>(s: seq<T>, score: T -> int): (m: T)
    requires s != []
    ensures m in s
    ensures forall i :: 0 <= i < |s| ==> score(s[i]) <= score(m)
  {
    if |s| == 1 then s[0]
    else
      var other := ArgMax(s[1..], score);
      if score(s[0]) >= score(other) then s[0] else other
  }

  /** When every element is the same, that element is the maximum. */
  lemma ArgMaxConstant<T>(s: seq<T>, score: T -> int, x: T)
    requires s != []
    requires forall i :: 0 <= i < |s| ==> s[i] == x
    ensures ArgMax(s, score) == x
  {
  }
}
