/**
 * The row order the database delivers for `order_by("date")` and `order_by("-date")`.
 * Rows with equal dates come in an order the database leaves open; this model keeps them
 * in collection order (a stable insertion sort).
 */
module Ordering {
  import opened Calendar
  import opened Models

  datatype Direction = Ascending | Descending

  /** `a` may come before `b` in the given direction. */
  predicate InOrder(a: Entry, b: Entry, dir: Direction) {
    match dir
    case Ascending => DateLe(a.date, b.date)
    case Descending => DateLe(b.date, a.date)
  }

  predicate SortedByDate(s: seq<Entry>, dir: Direction) {
    forall i, j :: 0 <= i < j < |s| ==> InOrder(s[i], s[j], dir)
  }

  /** Place `e` before the first entry of `s` that may follow it. */
  function Insert(e: Entry, s: seq<Entry>, dir: Direction): (r: seq<Entry>)
    ensures multiset(r) == multiset(s) + multiset{e}
    ensures |r| == |s| + 1
  {
    if s == [] then [e]
    else if InOrder(e, s[0], dir) then [e] + s
    else
      assert s == [s[0]] + s[1..];
      [s[0]] + Insert(e, s[1..], dir)
  }

  /** Any two entries can be placed in one order or the other. */
  lemma InOrderTotal(a: Entry, b: Entry, dir: Direction)
    ensures InOrder(a, b, dir) || InOrder(b, a, dir)
  {
  }

  /** In an ordered sequence the head may come before every later entry. */
  lemma HeadFirst(s: seq<Entry>, x: Entry, dir: Direction)
    requires SortedByDate(s, dir) && s != [] && x in s[1..]
    ensures InOrder(s[0], x, dir)
  {
    var m :| 0 <= m < |s[1..]| && s[1..][m] == x;
    assert s[m + 1] == x;
  }

  /** An ordered sequence stays ordered under a new head that may precede all of it. */
  lemma ConsSorted(x: Entry, r: seq<Entry>, dir: Direction)
    requires SortedByDate(r, dir)
    requires forall k :: 0 <= k < |r| ==> InOrder(x, r[k], dir)
    ensures SortedByDate([x] + r, dir)
  {
    var t := [x] + r;
    forall i, j | 0 <= i < j < |t|
      ensures InOrder(t[i], t[j], dir)
    {
      assert t[j] == r[j - 1];
      if i > 0 {
        assert t[i] == r[i - 1];
      }
    }
  }

  /** Inserting into an ordered sequence keeps it ordered. */
  lemma {:induction false} InsertSorted(e: Entry, s: seq<Entry>, dir: Direction)
    requires SortedByDate(s, dir)
    ensures SortedByDate(Insert(e, s, dir), dir)
  {
    if s == [] {
    } else if InOrder(e, s[0], dir) {
      forall k | 0 <= k < |s|
        ensures InOrder(e, s[k], dir)
      {
        if k > 0 {
          assert InOrder(s[0], s[k], dir);
        }
      }
      ConsSorted(e, s, dir);
    } else {
      var tail := s[1..];
      assert SortedByDate(tail, dir);
      var rest := Insert(e, tail, dir);
      InsertSorted(e, tail, dir);
      forall k | 0 <= k < |rest|
        ensures InOrder(s[0], rest[k], dir)
      {
        assert rest[k] in multiset(tail) + multiset{e};
        if rest[k] == e {
          InOrderTotal(e, s[0], dir);
        } else {
          assert rest[k] in tail;
          HeadFirst(s, rest[k], dir);
        }
      }
      ConsSorted(s[0], rest, dir);
      assert Insert(e, s, dir) == [s[0]] + rest;
    }
  }

  /** The entries of `s`, ordered by date in direction `dir`. */
  function SortByDate(s: seq<Entry>, dir: Direction): (r: seq<Entry>)
    ensures multiset(r) == multiset(s)
    ensures |r| == |s|
    ensures SortedByDate(r, dir)
  {
    if s == [] then []
    else
      assert s == [s[0]] + s[1..];
      var rest := SortByDate(s[1..], dir);
      InsertSorted(s[0], rest, dir);
      Insert(s[0], rest, dir)
  }
}
