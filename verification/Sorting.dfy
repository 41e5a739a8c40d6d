/** Stable sorting by a numeric key, and the ascending enumeration of a set of numbers. */
module Sorting {

  ghost predicate SortedBy<T(!new)>(s: seq<T>, key: T -> int) {
    forall i, j :: 0 <= i < j < |s| ==> key(s[i]) <= key(s[j])
  }

  ghost predicate StrictlySortedBy<T(!new)>(s: seq<T>, key: T -> int) {
    forall i, j :: 0 <= i < j < |s| ==> key(s[i]) < key(s[j])
  }

  /** Inserts `x` behind the elements whose key is not larger. */
  function InsertBy<T(!new)>(s: seq<T>, x: T, key: T -> int): (r: seq<T>)
    ensures SortedBy(s, key) ==> SortedBy(r, key)
    ensures forall y :: y in r <==> y in s || y == x
    ensures |r| == |s| + 1
  {
    if s == [] || key(x) < key(s[0]) then [x] + s
    else
      var tail := InsertBy(s[1..], x, key);
      assert forall i :: 0 <= i < |tail| ==> tail[i] in tail;
      assert SortedBy(s, key) ==> forall y :: y in s[1..] ==> key(s[0]) <= key(y);
      [s[0]] + tail
  }

  /** `sort_by_key`: stable and ascending. */
  function SortBy<T(!new)>(s: seq<T>, key: T -> int): (r: seq<T>)
    ensures SortedBy(r, key)
    ensures forall y :: y in r <==> y in s
    ensures |r| == |s|
  {
    if s == [] then [] else
      assert s == s[..|s| - 1] + [s[|s| - 1]];
      InsertBy(SortBy(s[..|s| - 1], key), s[|s| - 1], key)
  }

  lemma {:induction false} InsertKeeps<T(!new)>(s: seq<T>, x: T, key: T -> int)
    ensures multiset(InsertBy(s, x, key)) == multiset(s) + multiset{x}
  {
    if s != [] {
      assert s == [s[0]] + s[1..];
      if key(s[0]) <= key(x) { InsertKeeps(s[1..], x, key); }
    }
  }

  /** Sorting permutes. */
  lemma {:induction false} SortKeeps<T(!new)>(s: seq<T>, key: T -> int)
    ensures multiset(SortBy(s, key)) == multiset(s)
  {
    if s != [] {
      var front, x := s[..|s| - 1], s[|s| - 1];
      assert s == front + [x];
      assert multiset(s) == multiset(front) + multiset{x};
      SortKeeps(front, key);
      InsertKeeps(SortBy(front, key), x, key);
    }
  }

  /** A strictly sorted sequence is determined by its elements. */
  lemma {:induction false} StrictlySortedUnique<T(!new)>(s: seq<T>, t: seq<T>, key: T -> int)
    requires StrictlySortedBy(s, key) && StrictlySortedBy(t, key)
    requires forall x :: x in s <==> x in t
    ensures s == t
  {
    assert t == [] || t[0] in t;
    if s != [] {
      assert s[0] in t && (t != [] ==> t[0] in s);
      assert s[0] == t[0];
      forall x ensures x in s[1..] <==> x in t[1..] {
        assert x in s[1..] <==> x in s && x != s[0];
        assert x in t[1..] <==> x in t && x != t[0];
      }
      StrictlySortedUnique(s[1..], t[1..], key);
    }
  }

  ghost function Least(s: set<nat>): (m: nat)
    requires s != {}
    ensures m in s && forall x <- s :: m <= x
  {
    LeastExists(s);
    var m :| m in s && forall x <- s :: m <= x; m
  }

  lemma LeastExists(s: set<nat>)
    requires s != {}
    ensures exists m :: m in s && forall x <- s :: m <= x
  {
    var m := LeastOf(s);
  }

  lemma {:induction false} LeastOf(s: set<nat>) returns (m: nat)
    requires s != {}
    ensures m in s && forall x <- s :: m <= x
  {
    m :| m in s;
    var rest := s - {m};
    assert forall x <- s :: x == m || x in rest;
    if rest != {} {
      var b := LeastOf(rest);
      if b < m { m := b; }
    }
  }

  /** The elements of `s` in ascending order. */
  ghost function Ascending(s: set<nat>): (r: seq<nat>)
    ensures forall i, j :: 0 <= i < j < |r| ==> r[i] < r[j]
    ensures forall x :: x in r <==> x in s
    ensures |r| == |s|
  {
    if s == {} then [] else
      var tail := Ascending(s - {Least(s)});
      assert forall i :: 0 <= i < |tail| ==> tail[i] in tail;
      [Least(s)] + tail
  }
}
