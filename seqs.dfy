/**
 * The list operations the application builds everything from: JavaScript's
 * `Array.prototype.filter` (and SQL's WHERE), `reduce` to a sum, and the
 * notion of an order-preserving subsequence that both of them respect;
 * SQL's inner JOIN as a nested loop; and `results[0] || null`.
 */
module Seqs {
  import opened Common

  /** `s.filter(keep)`: the elements satisfying `keep`, in their original order. */
  function Filter<T(!new)>(s: seq<T>, keep: T -> bool): (r: seq<T>)
    ensures |r| <= |s|
    ensures forall x :: x in r <==> x in s && keep(x)
  {
    if s == [] then []
    else (if keep(s[0]) then [s[0]] else []) + Filter(s[1..], keep)
  }

  /** `results[0] || null` over the rows a WHERE clause keeps. */
  function First<T(!new)>(s: seq<T>, keep: T -> bool): (r: Option<T>)
    ensures r.None? <==> forall x :: x in s ==> !keep(x)
    ensures r.Some? ==> r.value in s && keep(r.value)
  {
    var kept := Filter(s, keep);
    if kept == [] then None else assert kept[0] in kept; Some(kept[0])
  }

  /** The rows `make(x, y)` for each `y` of `ys` that `x` joins with, in the order of `ys`. */
  function Matches<A(!new), B(!new), R(!new)>(x: A, ys: seq<B>, on: (A, B) -> bool, make: (A, B) -> R): (r: seq<R>)
    ensures forall z :: z in r <==> exists y :: y in ys && on(x, y) && z == make(x, y)
  {
    if ys == [] then []
    else
      var rest := Matches(x, ys[1..], on, make);
      assert forall y :: y in ys <==> y == ys[0] || y in ys[1..];
      (if on(x, ys[0]) then [make(x, ys[0])] else []) + rest
  }

  /** `xs JOIN ys ON on(x, y)`, each joined row built by `make`, the outer table first. */
  function Join<A(!new), B(!new), R(!new)>(xs: seq<A>, ys: seq<B>, on: (A, B) -> bool, make: (A, B) -> R): (r: seq<R>)
    ensures forall z :: z in r <==> exists x, y :: x in xs && y in ys && on(x, y) && z == make(x, y)
  {
    if xs == [] then []
    else
      var rest := Join(xs[1..], ys, on, make);
      assert forall x :: x in xs <==> x == xs[0] || x in xs[1..];
      Matches(xs[0], ys, on, make) + rest
  }

  /** Joining with a single row that every row of `xs` matches pairs each row with it. */
  lemma {:induction false} JoinWithOne<A(!new), B(!new), R(!new)>(xs: seq<A>, y: B, on: (A, B) -> bool, make: (A, B) -> R)
    requires forall i :: 0 <= i < |xs| ==> on(xs[i], y)
    ensures |Join(xs, [y], on, make)| == |xs|
    ensures forall i :: 0 <= i < |xs| ==> Join(xs, [y], on, make)[i] == make(xs[i], y)
  {
    if xs != [] {
      JoinWithOne(xs[1..], y, on, make);
      assert [y][1..] == [];
      assert Matches(xs[0], [y], on, make) == [make(xs[0], y)];
    }
  }

  /** No two elements share a key. */
  predicate DistinctKeys<T>(s: seq<T>, key: T -> int)
  {
    forall i, j :: 0 <= i < j < |s| ==> key(s[i]) != key(s[j])
  }

  /** A row that joins with nothing contributes no joined rows. */
  lemma NoMatchesIsEmpty<A(!new), B(!new), R(!new)>(x: A, ys: seq<B>, on: (A, B) -> bool, make: (A, B) -> R)
    requires forall y :: y in ys ==> !on(x, y)
    ensures Matches(x, ys, on, make) == []
  {
  }

  /** A row `x` whose partner `y` is the only row of `ys` with its key, and
      whose join condition admits no other key, joins with `y` alone. */
  lemma {:induction false} MatchesOnlyPartner<A(!new), B(!new), R(!new)>(x: A, y: B, ys: seq<B>, on: (A, B) -> bool, make: (A, B) -> R, key: B -> int)
    requires DistinctKeys(ys, key)
    requires y in ys && on(x, y)
    requires forall z :: z in ys && on(x, z) ==> key(z) == key(y)
    ensures Matches(x, ys, on, make) == [make(x, y)]
    decreases |ys|
  {
    var rest := ys[1..];
    var k :| 0 <= k < |ys| && ys[k] == y;
    if k == 0 {
      forall z | z in rest ensures !on(x, z) {
        var j :| 0 <= j < |rest| && rest[j] == z;
        assert ys[j + 1] == z;
        assert key(ys[0]) != key(ys[j + 1]);
      }
      NoMatchesIsEmpty(x, rest, on, make);
    } else {
      assert key(ys[0]) != key(ys[k]);
      assert DistinctKeys(rest, key) by {
        forall i, j | 0 <= i < j < |rest| ensures key(rest[i]) != key(rest[j]) {
          assert rest[i] == ys[i + 1] && rest[j] == ys[j + 1];
        }
      }
      assert rest[k - 1] == y;
      MatchesOnlyPartner(x, y, rest, on, make, key);
    }
  }

  /** Under the same conditions, one outer row contributes the joined row
      `make(x, y)` once when it is `x` and not at all otherwise. */
  lemma {:induction false} MatchesCount<A(!new), B(!new), R(!new)>(x0: A, ys: seq<B>, on: (A, B) -> bool, make: (A, B) -> R,
                                                                    key: B -> int, foreign: A -> int, outer: R -> A, x: A, y: B)
    requires DistinctKeys(ys, key)
    requires forall a, b :: on(a, b) ==> key(b) == foreign(a)
    requires forall a, b :: outer(make(a, b)) == a
    requires y in ys && on(x, y)
    ensures multiset(Matches(x0, ys, on, make))[make(x, y)] == if x0 == x then 1 else 0
  {
    if x0 == x {
      MatchesOnlyPartner(x, y, ys, on, make, key);
    } else {
      assert outer(make(x, y)) == x;
      assert make(x, y) !in Matches(x0, ys, on, make);
    }
  }

  /** An inner join on a key that is unique in `ys` (a foreign key into a
      primary key) produces each joined row exactly as often as its outer row
      occurs in `xs`: no row is lost and none is repeated. */
  lemma {:induction false} JoinCount<A(!new), B(!new), R(!new)>(xs: seq<A>, ys: seq<B>, on: (A, B) -> bool, make: (A, B) -> R,
                                                                 key: B -> int, foreign: A -> int, outer: R -> A, x: A, y: B)
    requires DistinctKeys(ys, key)
    requires forall a, b :: on(a, b) ==> key(b) == foreign(a)
    requires forall a, b :: outer(make(a, b)) == a
    requires y in ys && on(x, y)
    ensures multiset(Join(xs, ys, on, make))[make(x, y)] == multiset(xs)[x]
    decreases |xs|
  {
    if xs != [] {
      JoinCount(xs[1..], ys, on, make, key, foreign, outer, x, y);
      MatchesCount(xs[0], ys, on, make, key, foreign, outer, x, y);
      assert Join(xs, ys, on, make) == Matches(xs[0], ys, on, make) + Join(xs[1..], ys, on, make);
      assert xs == [xs[0]] + xs[1..];
    }
  }

  lemma {:induction false} FilterKeepsDistinct<T(!new)>(s: seq<T>, keep: T -> bool, key: T -> int)
    requires DistinctKeys(s, key)
    ensures DistinctKeys(Filter(s, keep), key)
  {
    if s != [] {
      FilterKeepsDistinct(s[1..], keep, key);
      var tail := Filter(s[1..], keep);
      if keep(s[0]) {
        var r := [s[0]] + tail;
        forall i, j | 0 <= i < j < |r| ensures key(r[i]) != key(r[j]) {
          if i == 0 {
            assert r[j] == tail[j - 1] && tail[j - 1] in s[1..];
          } else {
            assert r[i] == tail[i - 1] && r[j] == tail[j - 1];
          }
        }
      }
    }
  }

  lemma DistinctAppend<T>(s: seq<T>, x: T, key: T -> int)
    requires DistinctKeys(s, key)
    requires forall i :: 0 <= i < |s| ==> key(s[i]) != key(x)
    ensures DistinctKeys(s + [x], key)
  {
  }

  /** `r` can be obtained from `s` by deleting elements, without reordering. */
  predicate IsSubsequence<T(==)>(r: seq<T>, s: seq<T>)
    decreases |s|
  {
    if s == [] then r == []
    else (r != [] && r[0] == s[0] && IsSubsequence(r[1..], s[1..])) || IsSubsequence(r, s[1..])
  }

  /** Deleting elements twice is deleting elements once. */
  lemma {:induction false} SubsequenceTransitive<T>(a: seq<T>, b: seq<T>, c: seq<T>)
    requires IsSubsequence(a, b) && IsSubsequence(b, c)
    ensures IsSubsequence(a, c)
    decreases |c|
  {
    if c != [] {
      if b != [] && b[0] == c[0] && IsSubsequence(b[1..], c[1..]) {
        if a != [] && a[0] == b[0] && IsSubsequence(a[1..], b[1..]) {
          SubsequenceTransitive(a[1..], b[1..], c[1..]);
        } else {
          SubsequenceTransitive(a, b[1..], c[1..]);
        }
      } else {
        SubsequenceTransitive(a, b, c[1..]);
      }
    }
  }

  /** Sum of `f` over the elements: `s.reduce((sum, x) => sum + f(x), 0)`. */
  function SumOf<T>(s: seq<T>, f: T -> int): int
  {
    if s == [] then 0 else f(s[0]) + SumOf(s[1..], f)
  }

  lemma {:induction false} FilterIsSubsequence<T(!new)>(s: seq<T>, keep: T -> bool)
    ensures IsSubsequence(Filter(s, keep), s)
  {
    if s != [] {
      FilterIsSubsequence(s[1..], keep);
      if keep(s[0]) {
        assert Filter(s, keep) == [s[0]] + Filter(s[1..], keep);
        assert ([s[0]] + Filter(s[1..], keep))[1..] == Filter(s[1..], keep);
      } else {
        assert Filter(s, keep) == Filter(s[1..], keep);
      }
    }
  }

  lemma {:induction false} FilterAppend<T(!new)>(a: seq<T>, b: seq<T>, keep: T -> bool)
    ensures Filter(a + b, keep) == Filter(a, keep) + Filter(b, keep)
  {
    if a == [] {
      assert a + b == b;
    } else {
      assert (a + b)[1..] == a[1..] + b;
      FilterAppend(a[1..], b, keep);
    }
  }

  /** Filtering with `q` first changes nothing when `keep` already implies `q`. */
  lemma {:induction false} FilterOfFilter<T(!new)>(s: seq<T>, q: T -> bool, keep: T -> bool)
    requires forall x :: keep(x) ==> q(x)
    ensures Filter(Filter(s, q), keep) == Filter(s, keep)
  {
    if s != [] {
      FilterOfFilter(s[1..], q, keep);
      if q(s[0]) {
        var head := if keep(s[0]) then [s[0]] else [];
        assert Filter([s[0]], keep) == head + Filter([s[0]][1..], keep);
        assert [s[0]][1..] == [];
        calc {
          Filter(Filter(s, q), keep);
          { assert Filter(s, q) == [s[0]] + Filter(s[1..], q); }
          Filter([s[0]] + Filter(s[1..], q), keep);
          { FilterAppend([s[0]], Filter(s[1..], q), keep); }
          Filter([s[0]], keep) + Filter(Filter(s[1..], q), keep);
          head + Filter(s[1..], keep);
        }
      } else {
        assert !keep(s[0]);
        assert Filter(s, q) == Filter(s[1..], q);
        assert Filter(s, keep) == Filter(s[1..], keep);
      }
    }
  }

  /** Filtering twice with the same predicate is the same as filtering once. */
  lemma {:induction false} FilterIdempotent<T(!new)>(s: seq<T>, keep: T -> bool)
    ensures Filter(Filter(s, keep), keep) == Filter(s, keep)
  {
    FilterOfFilter(s, keep, keep);
  }

  /** Nothing is dropped when every element satisfies the predicate. */
  lemma {:induction false} FilterAll<T(!new)>(s: seq<T>, keep: T -> bool)
    requires forall i :: 0 <= i < |s| ==> keep(s[i])
    ensures Filter(s, keep) == s
  {
    if s != [] {
      FilterAll(s[1..], keep);
    }
  }

  /** Nothing is kept when no element satisfies the predicate. */
  lemma {:induction false} FilterNone<T(!new)>(s: seq<T>, keep: T -> bool)
    requires forall i :: 0 <= i < |s| ==> !keep(s[i])
    ensures Filter(s, keep) == []
  {
    if s != [] {
      FilterNone(s[1..], keep);
    }
  }

  /** Predicates that agree on every element select the same elements. */
  lemma {:induction false} FilterSamePredicate<T(!new)>(s: seq<T>, p: T -> bool, q: T -> bool)
    requires forall i :: 0 <= i < |s| ==> p(s[i]) == q(s[i])
    ensures Filter(s, p) == Filter(s, q)
  {
    if s != [] {
      FilterSamePredicate(s[1..], p, q);
    }
  }

  /** Two predicates that never hold together select at most |s| elements between them. */
  lemma {:induction false} FilterDisjointCounts<T(!new)>(s: seq<T>, p: T -> bool, q: T -> bool)
    requires forall x :: !(p(x) && q(x))
    ensures |Filter(s, p)| + |Filter(s, q)| <= |s|
  {
    if s != [] {
      FilterDisjointCounts(s[1..], p, q);
    }
  }

  /** ... and exactly |s| when one of them always holds. */
  lemma {:induction false} FilterPartitionCounts<T(!new)>(s: seq<T>, p: T -> bool, q: T -> bool)
    requires forall x :: !(p(x) && q(x))
    requires forall i :: 0 <= i < |s| ==> p(s[i]) || q(s[i])
    ensures |Filter(s, p)| + |Filter(s, q)| == |s|
  {
    if s != [] {
      FilterPartitionCounts(s[1..], p, q);
    }
  }

  lemma {:induction false} SumOfAppend<T>(a: seq<T>, b: seq<T>, f: T -> int)
    ensures SumOf(a + b, f) == SumOf(a, f) + SumOf(b, f)
  {
    if a == [] {
      assert a + b == b;
    } else {
      assert (a + b)[1..] == a[1..] + b;
      SumOfAppend(a[1..], b, f);
    }
  }

  /** Taking out the element at `k` removes one copy of it from the multiset. */
  lemma RemoveAtMultiset<T>(b: seq<T>, k: int)
    requires 0 <= k < |b|
    ensures multiset(b[..k] + b[k + 1..]) == multiset(b) - multiset{b[k]}
  {
    assert b == b[..k] + [b[k]] + b[k + 1..];
    assert multiset(b) == multiset(b[..k]) + multiset([b[k]]) + multiset(b[k + 1..]);
  }

  /** Taking out the element at `k` takes its value out of the sum. */
  lemma {:induction false} RemoveAtSum<T>(b: seq<T>, k: int, f: T -> int)
    requires 0 <= k < |b|
    ensures SumOf(b, f) == f(b[k]) + SumOf(b[..k] + b[k + 1..], f)
  {
    assert b == b[..k] + [b[k]] + b[k + 1..];
    SumOfAppend(b[..k], b[k + 1..], f);
    SumOfAppend(b[..k] + [b[k]], b[k + 1..], f);
    SumOfAppend(b[..k], [b[k]], f);
    assert SumOf([b[k]], f) == f(b[k]) by {
      assert [b[k]][1..] == [];
    }
  }

  /** The sum does not depend on the order of the elements. */
  lemma {:induction false} SumOfPermutation<T>(a: seq<T>, b: seq<T>, f: T -> int)
    requires multiset(a) == multiset(b)
    ensures SumOf(a, f) == SumOf(b, f)
    decreases |a|
  {
    if a != [] {
      assert a[0] in multiset(b);
      var k :| 0 <= k < |b| && b[k] == a[0];
      var rest := b[..k] + b[k + 1..];
      RemoveAtMultiset(b, k);
      assert a == [a[0]] + a[1..];
      assert multiset(a[1..]) == multiset(rest);
      SumOfPermutation(a[1..], rest, f);
      RemoveAtSum(b, k, f);
    } else {
      assert |multiset(b)| == 0;
    }
  }

  lemma {:induction false} SumOfNonNegative<T>(s: seq<T>, f: T -> int)
    requires forall i :: 0 <= i < |s| ==> f(s[i]) >= 0
    ensures SumOf(s, f) >= 0
  {
    if s != [] {
      SumOfNonNegative(s[1..], f);
    }
  }
}
