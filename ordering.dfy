/**
 * `ORDER BY key ASC` / `ORDER BY key DESC` on a TEXT column, as an insertion
 * sort. SQLite leaves the relative order of rows with equal keys unspecified;
 * this sort keeps them in table order, and only sortedness and "same rows"
 * are promised.
 */
module Ordering {
  import opened Text

  /** `a` may come before `b` in the requested direction. */
  predicate InOrder(a: string, b: string, descending: bool)
  {
    if descending then LexLe(b, a) else LexLe(a, b)
  }

  /** Every element comes no later than the ones after it. */
  predicate SortedBy<T>(s: seq<T>, key: T -> string, descending: bool)
  {
    forall i, j :: 0 <= i < j < |s| ==> InOrder(key(s[i]), key(s[j]), descending)
  }

  lemma {:induction false} InOrderTotal(a: string, b: string, descending: bool)
    ensures InOrder(a, b, descending) || InOrder(b, a, descending)
  {
    LexLeTotal(a, b);
  }

  lemma {:induction false} InOrderTransitive(a: string, b: string, c: string, descending: bool)
    requires InOrder(a, b, descending) && InOrder(b, c, descending)
    ensures InOrder(a, c, descending)
  {
    if descending {
      LexLeTransitive(c, b, a);
    } else {
      LexLeTransitive(a, b, c);
    }
  }

  /** `x` placed in front of the first element it may precede. */
  function Insert<T>(x: T, s: seq<T>, key: T -> string, descending: bool): (r: seq<T>)
    requires SortedBy(s, key, descending)
    ensures SortedBy(r, key, descending)
    ensures multiset(r) == multiset(s) + multiset{x}
  {
    if s == [] then [x]
    else if InOrder(key(x), key(s[0]), descending) then
      InsertFront(x, s, key, descending);
      [x] + s
    else
      var rest := Insert(x, s[1..], key, descending);
      InOrderTotal(key(x), key(s[0]), descending);
      forall k | 0 <= k < |rest| ensures InOrder(key(s[0]), key(rest[k]), descending) {
        assert rest[k] in multiset(rest);
        if rest[k] != x {
          assert rest[k] in multiset(s[1..]);
          var m :| 0 <= m < |s[1..]| && s[1..][m] == rest[k];
          assert s[m + 1] == rest[k];
        }
      }
      InsertBehind(s[0], rest, key, descending);
      assert s == [s[0]] + s[1..];
      [s[0]] + rest
  }

  lemma {:induction false} InsertFront<T>(x: T, s: seq<T>, key: T -> string, descending: bool)
    requires SortedBy(s, key, descending)
    requires s != [] && InOrder(key(x), key(s[0]), descending)
    ensures SortedBy([x] + s, key, descending)
  {
    var r := [x] + s;
    forall i, j | 0 <= i < j < |r| ensures InOrder(key(r[i]), key(r[j]), descending) {
      if i == 0 && j > 1 {
        InOrderTransitive(key(x), key(s[0]), key(s[j - 1]), descending);
      }
    }
  }

  /** Prepending `y` keeps a sorted sequence sorted when `y` may precede all of it. */
  lemma {:induction false} InsertBehind<T>(y: T, rest: seq<T>, key: T -> string, descending: bool)
    requires SortedBy(rest, key, descending)
    requires forall k :: 0 <= k < |rest| ==> InOrder(key(y), key(rest[k]), descending)
    ensures SortedBy([y] + rest, key, descending)
  {
    var r := [y] + rest;
    forall i, j | 0 <= i < j < |r| ensures InOrder(key(r[i]), key(r[j]), descending) {
      if i == 0 {
        assert r[j] == rest[j - 1];
      } else {
        assert r[i] == rest[i - 1] && r[j] == rest[j - 1];
      }
    }
  }

  /** The rows of `s` ordered by `key` (ascending, or descending when asked). */
  function SortBy<T>(s: seq<T>, key: T -> string, descending: bool): (r: seq<T>)
    ensures SortedBy(r, key, descending)
    ensures multiset(r) == multiset(s)
    ensures |r| == |s|
  {
    if s == [] then []
    else
      assert s == [s[0]] + s[1..];
      Insert(s[0], SortBy(s[1..], key, descending), key, descending)
  }

  /** Sorting neither adds nor drops a row. */
  lemma {:induction false} SortByKeepsMembers<T(!new)>(s: seq<T>, key: T -> string, descending: bool)
    ensures forall x :: x in SortBy(s, key, descending) <==> x in s
  {
    var r := SortBy(s, key, descending);
    forall x ensures x in r <==> x in s {
      assert x in r <==> x in multiset(r);
      assert x in s <==> x in multiset(s);
    }
  }
}
