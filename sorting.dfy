/**
 * Kotlin's `sortedBy` and `sortedByDescending` are stable sorts. Both are modelled by one
 * insertion sort over an ordering `le` ("may come before"): an element is inserted ahead
 * of the first element it may precede, so of two equal elements the one that came first
 * stays first.
 */
module Sorting {

  ghost predicate Total<T(!new)>(le: (T, T) -> bool) {
    forall a, b :: le(a, b) || le(b, a)
  }

  ghost predicate Transitive<T(!new)>(le: (T, T) -> bool) {
    forall a, b, c :: le(a, b) && le(b, c) ==> le(a, c)
  }

  /** A total preorder: what a key comparison (`compareBy { key }`) is. */
  ghost predicate Preorder<T(!new)>(le: (T, T) -> bool) {
    Total(le) && Transitive(le)
  }

  predicate SortedBy<T>(s: seq<T>, le: (T, T) -> bool) {
    forall i, j :: 0 <= i < j < |s| ==> le(s[i], s[j])
  }

  /** Sorted by `primary`, and among elements `primary` ranks equal, by `secondary`. */
  predicate SortedLex<T>(s: seq<T>, primary: (T, T) -> bool, secondary: (T, T) -> bool) {
    forall i, j :: 0 <= i < j < |s| ==>
      primary(s[i], s[j]) && (primary(s[j], s[i]) ==> secondary(s[i], s[j]))
  }

  /** Puts `x` ahead of the first element it may precede. */
  function Insert<T>(x: T, s: seq<T>, le: (T, T) -> bool): (r: seq<T>)
    ensures multiset(r) == multiset{x} + multiset(s)
    ensures |r| == |s| + 1
  {
    if s == [] then [x]
    else if le(x, s[0]) then [x] + s
    else
      assert s == [s[0]] + s[1..];
      [s[0]] + Insert(x, s[1..], le)
  }

  /** `sortedBy`: stable insertion sort. */
  function Sort<T>(s: seq<T>, le: (T, T) -> bool): (r: seq<T>)
    ensures multiset(r) == multiset(s)
    ensures |r| == |s|
  {
    if s == [] then []
    else
      assert s == [s[0]] + s[1..];
      Insert(s[0], Sort(s[1..], le), le)
  }

  /** Every element of `r` is `x` or an element of `s`. */
  lemma InsertMembers<T>(x: T, s: seq<T>, le: (T, T) -> bool, i: int)
    requires 0 <= i < |Insert(x, s, le)|
    ensures Insert(x, s, le)[i] == x || Insert(x, s, le)[i] in s
  {
    var r := Insert(x, s, le);
    assert r[i] in multiset(r);
  }

  /** Inserting into a sorted list keeps it sorted. */
  lemma {:induction false} InsertSorted<T(!new)>(x: T, s: seq<T>, le: (T, T) -> bool)
    requires Preorder(le) && SortedBy(s, le)
    ensures SortedBy(Insert(x, s, le), le)
  {
    if s != [] && !le(x, s[0]) {
      var t := s[1..];
      InsertSorted(x, t, le);
      var r := Insert(x, s, le);
      assert r == [s[0]] + Insert(x, t, le);
      forall j | 1 <= j < |r| ensures le(r[0], r[j]) {
        InsertMembers(x, t, le, j - 1);
      }
    }
  }

  /** The insertion sort sorts. */
  lemma {:induction false} SortSorted<T(!new)>(s: seq<T>, le: (T, T) -> bool)
    requires Preorder(le)
    ensures SortedBy(Sort(s, le), le)
  {
    if s != [] {
      SortSorted(s[1..], le);
      InsertSorted(s[0], Sort(s[1..], le), le);
    }
  }

  /** A list that is sorted lexicographically behind a first element `h` that precedes
      all of it is sorted lexicographically. */
  lemma ConsLex<T>(h: T, s: seq<T>, primary: (T, T) -> bool, secondary: (T, T) -> bool)
    requires SortedLex(s, primary, secondary)
    requires forall y :: y in s ==> primary(h, y) && (primary(y, h) ==> secondary(h, y))
    ensures SortedLex([h] + s, primary, secondary)
  {
    var r := [h] + s;
    forall i, j | 0 <= i < j < |r|
      ensures primary(r[i], r[j]) && (primary(r[j], r[i]) ==> secondary(r[i], r[j]))
    {
      assert r[j] == s[j - 1];
      if i > 0 { assert r[i] == s[i - 1]; }
    }
  }

  /** Inserting an element that may precede every element of a lexicographically sorted
      list by `secondary` keeps the list lexicographically sorted. */
  lemma {:induction false} InsertLex<T(!new)>(x: T, s: seq<T>, primary: (T, T) -> bool,
                                        secondary: (T, T) -> bool)
    requires Preorder(primary) && SortedLex(s, primary, secondary)
    requires forall y :: y in s ==> secondary(x, y)
    ensures SortedLex(Insert(x, s, primary), primary, secondary)
  {
    if s == [] {
    } else if primary(x, s[0]) {
      forall y | y in s ensures primary(x, y) {
        var k :| 0 <= k < |s| && s[k] == y;
        if k > 0 { assert primary(s[0], s[k]); }
      }
      ConsLex(x, s, primary, secondary);
    } else {
      var t := s[1..];
      assert forall y :: y in t ==> y in s;
      InsertLex(x, t, primary, secondary);
      var u := Insert(x, t, primary);
      forall y | y in u ensures primary(s[0], y) && (primary(y, s[0]) ==> secondary(s[0], y)) {
        var k :| 0 <= k < |u| && u[k] == y;
        InsertMembers(x, t, primary, k);
        if y != x {
          var m :| 0 <= m < |t| && t[m] == y;
          assert s[m + 1] == y;
        }
      }
      ConsLex(s[0], u, primary, secondary);
    }
  }

  /** Two stable passes, first by `secondary` and then by `primary`, sort by `primary`
      with ties broken by `secondary`. */
  lemma {:induction false} SortTwice<T(!new)>(s: seq<T>, primary: (T, T) -> bool,
                                        secondary: (T, T) -> bool)
    requires Preorder(primary) && SortedBy(s, secondary)
    ensures SortedLex(Sort(s, primary), primary, secondary)
  {
    if s != [] {
      var t := s[1..];
      SortTwice(t, primary, secondary);
      var u := Sort(t, primary);
      forall y | y in u ensures secondary(s[0], y) {
        assert y in multiset(u);
        var k :| 0 <= k < |t| && t[k] == y;
        assert s[k + 1] == y;
      }
      InsertLex(s[0], u, primary, secondary);
    }
  }

  /** The elements of `s` that `le` ranks equal to `c`, in their order in `s`. */
  function Ties<T>(s: seq<T>, le: (T, T) -> bool, c: T): (r: seq<T>)
    ensures forall x :: x in r ==> x in s && le(x, c) && le(c, x)
    decreases |s|
  {
    if s == [] then []
    else (if le(s[0], c) && le(c, s[0]) then [s[0]] else []) + Ties(s[1..], le, c)
  }

  lemma {:induction false} TiesAppend<T>(a: seq<T>, b: seq<T>, le: (T, T) -> bool, c: T)
    ensures Ties(a + b, le, c) == Ties(a, le, c) + Ties(b, le, c)
    decreases |a|
  {
    if a != [] {
      assert (a + b)[0] == a[0] && (a + b)[1..] == a[1..] + b;
      TiesAppend(a[1..], b, le, c);
    } else {
      assert a + b == b;
    }
  }

  /** Inserting `x` passes only elements `x` may not precede, so none of them ties with
      `x`: among the elements tied with any `c`, `x` comes first. */
  lemma {:induction false} InsertTies<T(!new)>(x: T, s: seq<T>, le: (T, T) -> bool, c: T)
    requires Transitive(le)
    ensures Ties(Insert(x, s, le), le, c) ==
      (if le(x, c) && le(c, x) then [x] else []) + Ties(s, le, c)
    decreases |s|
  {
    if s == [] {
      assert Ties([x], le, c) == (if le(x, c) && le(c, x) then [x] else []) + Ties([], le, c);
    } else if le(x, s[0]) {
      assert ([x] + s)[0] == x && ([x] + s)[1..] == s;
    } else {
      var t := s[1..];
      InsertTies(x, t, le, c);
      var u := [s[0]] + Insert(x, t, le);
      assert u[0] == s[0] && u[1..] == Insert(x, t, le);
      assert le(x, c) && le(c, x) ==> !(le(s[0], c) && le(c, s[0]));
    }
  }

  /** Stability: for every `c`, the elements the sort ranks equal to `c` keep their order. */
  lemma {:induction false} SortStable<T(!new)>(s: seq<T>, le: (T, T) -> bool, c: T)
    requires Transitive(le)
    ensures Ties(Sort(s, le), le, c) == Ties(s, le, c)
    decreases |s|
  {
    if s != [] {
      SortStable(s[1..], le, c);
      InsertTies(s[0], Sort(s[1..], le), le, c);
    }
  }

  /** Selecting the ties of two orderings in either order selects the same elements. */
  lemma {:induction false} TiesCommute<T>(s: seq<T>, p: (T, T) -> bool, q: (T, T) -> bool, c: T)
    ensures Ties(Ties(s, p, c), q, c) == Ties(Ties(s, q, c), p, c)
    decreases |s|
  {
    if s != [] {
      var h := if p(s[0], c) && p(c, s[0]) then [s[0]] else [];
      var k := if q(s[0], c) && q(c, s[0]) then [s[0]] else [];
      TiesAppend(h, Ties(s[1..], p, c), q, c);
      TiesAppend(k, Ties(s[1..], q, c), p, c);
      TiesCommute(s[1..], p, q, c);
      if h != [] { assert h[1..] == []; }
      if k != [] { assert k[1..] == []; }
    }
  }
}
