/** The array combinators the screens are written with (`filter`, `find`,
    `reduce`, `new Set(xs.map(f)).size`, a stable `sort`), as functions on
    sequences together with the facts the screens rely on. */
module Seqs {
  import opened Common

  /** `a` is obtained from `b` by deleting elements (order is kept). */
  ghost predicate IsSubsequence<T(!new)>(a: seq<T>, b: seq<T>)
    decreases |b|
  {
    if a == [] then true
    else if b == [] then false
    else if a[0] == b[0] then IsSubsequence(a[1..], b[1..])
    else IsSubsequence(a, b[1..])
  }

  /** A subsequence of `b` is a subsequence of any extension of `b` at the front. */
  lemma {:induction false} SubsequenceOfCons<T(!new)>(a: seq<T>, x: T, b: seq<T>)
    requires IsSubsequence(a, b)
    ensures IsSubsequence(a, [x] + b)
    decreases |b|, 1
  {
    if a != [] {
      var xb := [x] + b;
      assert xb[1..] == b;
      if a[0] == x {
        SubsequenceDropHead(a, b);
      }
    }
  }

  /** Dropping the first element of a non-empty subsequence keeps it a subsequence. */
  lemma {:induction false} SubsequenceDropHead<T(!new)>(a: seq<T>, b: seq<T>)
    requires a != [] && IsSubsequence(a, b)
    ensures IsSubsequence(a[1..], b)
    decreases |b|, 0
  {
    assert [b[0]] + b[1..] == b;
    if a[0] == b[0] {
      SubsequenceOfCons(a[1..], b[0], b[1..]);
    } else {
      SubsequenceDropHead(a, b[1..]);
      SubsequenceOfCons(a[1..], b[0], b[1..]);
    }
  }

  /** Every sequence is a subsequence of itself. */
  lemma {:induction false} SubsequenceReflexive<T(!new)>(a: seq<T>)
    ensures IsSubsequence(a, a)
  {
    if a != [] {
      SubsequenceReflexive(a[1..]);
    }
  }

  /** `xs.filter(p)`. */
  function Filter<T(!new)>(xs: seq<T>, p: T -> bool): (r: seq<T>)
    ensures |r| <= |xs|
    ensures forall x :: x in r <==> x in xs && p(x)
    ensures multiset(r) <= multiset(xs)
  {
    if xs == [] then []
    else
      assert xs == [xs[0]] + xs[1..];
      (if p(xs[0]) then [xs[0]] else []) + Filter(xs[1..], p)
  }

  /** One step of `filter`, for a list written as head and tail. */
  lemma FilterCons<T(!new)>(x: T, s: seq<T>, p: T -> bool)
    ensures Filter([x] + s, p) == (if p(x) then [x] else []) + Filter(s, p)
  {
    assert ([x] + s)[0] == x && ([x] + s)[1..] == s;
  }

  /** The filtered list keeps the relative order of the kept elements. */
  lemma {:induction false} FilterIsSubsequence<T(!new)>(xs: seq<T>, p: T -> bool)
    ensures IsSubsequence(Filter(xs, p), xs)
  {
    if xs != [] {
      var x, tail := xs[0], xs[1..];
      var rest := Filter(tail, p);
      FilterIsSubsequence(tail, p);
      assert Filter(xs, p) == (if p(x) then [x] else []) + rest by {
        FilterCons(x, tail, p);
        assert [x] + tail == xs;
      }
      if p(x) {
        var a := [x] + rest;
        assert Filter(xs, p) == a;
        assert a[0] == x && a[1..] == rest;
      } else {
        assert Filter(xs, p) == rest;
        SubsequenceOfCons(rest, x, tail);
        assert [x] + tail == xs;
      }
    }
  }

  /** Filtering distributes over concatenation. */
  lemma {:induction false} FilterConcat<T(!new)>(xs: seq<T>, ys: seq<T>, p: T -> bool)
    ensures Filter(xs + ys, p) == Filter(xs, p) + Filter(ys, p)
  {
    if xs == [] {
      assert xs + ys == ys;
    } else {
      assert (xs + ys)[0] == xs[0];
      assert (xs + ys)[1..] == xs[1..] + ys;
      FilterConcat(xs[1..], ys, p);
    }
  }

  /** A head that satisfies the predicate heads the filtered list. */
  lemma FilterKeepsHead<T(!new)>(xs: seq<T>, p: T -> bool)
    requires xs != [] && p(xs[0])
    ensures Filter(xs, p) != [] && Filter(xs, p)[0] == xs[0]
  {
    assert xs == [xs[0]] + xs[1..];
    FilterCons(xs[0], xs[1..], p);
  }

  /** The conjunction of two predicates. */
  function Both<T>(p: T -> bool, q: T -> bool): T -> bool
  {
    x => p(x) && q(x)
  }

  /** Filtering by `p` and then by `q` is filtering by both at once. */
  lemma {:induction false} FilterFilter<T(!new)>(xs: seq<T>, p: T -> bool, q: T -> bool)
    ensures Filter(Filter(xs, p), q) == Filter(xs, Both(p, q))
  {
    if xs != [] {
      var x, tail := xs[0], xs[1..];
      assert [x] + tail == xs;
      FilterCons(x, tail, p);
      FilterFilter(tail, p, q);
      if p(x) {
        FilterCons(x, Filter(tail, p), q);
        assert Filter(xs, p) == [x] + Filter(tail, p);
      } else {
        assert Filter(xs, p) == Filter(tail, p);
      }
    }
  }

  /** The first survivor of a filter is the element `find` picks. */
  lemma {:induction false} FilterHeadIsFound<T(!new)>(xs: seq<T>, p: T -> bool)
    requires Filter(xs, p) != []
    ensures FindIndex(xs, p).Some? && xs[FindIndex(xs, p).value] == Filter(xs, p)[0]
  {
    if !p(xs[0]) {
      FilterHeadIsFound(xs[1..], p);
    }
  }

  /** A predicate that holds everywhere keeps the whole list. */
  lemma {:induction false} FilterAll<T(!new)>(xs: seq<T>, p: T -> bool)
    requires forall x :: x in xs ==> p(x)
    ensures Filter(xs, p) == xs
  {
    if xs != [] {
      var x, tail := xs[0], xs[1..];
      assert xs == [x] + tail;
      assert p(x) && forall y :: y in tail ==> p(y) by {
        assert forall y :: y in xs <==> y == x || y in tail;
      }
      FilterAll(tail, p);
      FilterCons(x, tail, p);
    }
  }

  /** A predicate that holds nowhere keeps nothing. */
  lemma {:induction false} FilterNone<T(!new)>(xs: seq<T>, p: T -> bool)
    requires forall x :: x in xs ==> !p(x)
    ensures Filter(xs, p) == []
  {
    if xs != [] {
      FilterNone(xs[1..], p);
    }
  }

  /** Filtering twice by the same predicate is filtering once. */
  lemma FilterIdempotent<T(!new)>(xs: seq<T>, p: T -> bool)
    ensures Filter(Filter(xs, p), p) == Filter(xs, p)
  {
    FilterAll(Filter(xs, p), p);
  }

  /** `xs.filter(p)` and `xs.filter(x => !p(x))` split `xs`: no element is lost or
      duplicated. */
  lemma {:induction false} FilterPartition<T(!new)>(xs: seq<T>, p: T -> bool, q: T -> bool)
    requires forall x :: q(x) == !p(x)
    ensures |Filter(xs, p)| + |Filter(xs, q)| == |xs|
    ensures multiset(Filter(xs, p)) + multiset(Filter(xs, q)) == multiset(xs)
  {
    if xs != [] {
      FilterPartition(xs[1..], p, q);
      assert [xs[0]] + xs[1..] == xs;
    }
  }

  /** Index of the first element satisfying `p` (`xs.findIndex(p)`, -1 as None). */
  function FindIndex<T(!new)>(xs: seq<T>, p: T -> bool): (r: Option<nat>)
    ensures r.None? <==> forall i :: 0 <= i < |xs| ==> !p(xs[i])
    ensures r.Some? ==> r.value < |xs| && p(xs[r.value])
    ensures r.Some? ==> forall j :: 0 <= j < r.value ==> !p(xs[j])
  {
    if xs == [] then None
    else if p(xs[0]) then Some(0)
    else match FindIndex(xs[1..], p)
      case None => None
      case Some(i) => Some(i + 1)
  }

  /** `xs.find(p)`: the first element satisfying `p`, if any. */
  function Find<T(!new)>(xs: seq<T>, p: T -> bool): (r: Option<T>)
    ensures r.None? <==> forall x :: x in xs ==> !p(x)
    ensures r.Some? ==> r.value in xs && p(r.value)
    ensures r.Some? ==> exists i :: 0 <= i < |xs| && xs[i] == r.value && forall j :: 0 <= j < i ==> !p(xs[j])
  {
    match FindIndex(xs, p)
    case None => None
    case Some(i) => Some(xs[i])
  }

  /** Appending never changes what `find` answers once it has an answer, and
      answers with the appended element only when nothing earlier matched. */
  lemma {:induction false} FindAppend<T(!new)>(xs: seq<T>, y: T, p: T -> bool)
    ensures Find(xs, p).Some? ==> Find(xs + [y], p) == Find(xs, p)
    ensures Find(xs, p).None? ==> Find(xs + [y], p) == (if p(y) then Some(y) else None)
  {
    FindIndexAppend(xs, y, p);
  }

  lemma {:induction false} FindIndexAppend<T(!new)>(xs: seq<T>, y: T, p: T -> bool)
    ensures FindIndex(xs, p).Some? ==> FindIndex(xs + [y], p) == FindIndex(xs, p)
    ensures FindIndex(xs, p).None? ==> FindIndex(xs + [y], p) == (if p(y) then Some(|xs|) else None)
  {
    if xs != [] {
      assert (xs + [y])[0] == xs[0];
      assert (xs + [y])[1..] == xs[1..] + [y];
      FindIndexAppend(xs[1..], y, p);
    }
  }

  /** `xs.reduce((sum, x) => sum + f(x), 0)`. */
  function Sum<T(!new)>(xs: seq<T>, f: T -> int): int
  {
    if xs == [] then 0 else f(xs[0]) + Sum(xs[1..], f)
  }

  /** The sum is additive over concatenation. */
  lemma {:induction false} SumConcat<T(!new)>(xs: seq<T>, ys: seq<T>, f: T -> int)
    ensures Sum(xs + ys, f) == Sum(xs, f) + Sum(ys, f)
  {
    if xs == [] {
      assert xs + ys == ys;
    } else {
      assert (xs + ys)[0] == xs[0];
      assert (xs + ys)[1..] == xs[1..] + ys;
      SumConcat(xs[1..], ys, f);
    }
  }

  /** A sum of zero terms is zero. */
  lemma {:induction false} SumZero<T(!new)>(xs: seq<T>, f: T -> int)
    requires forall x :: x in xs ==> f(x) == 0
    ensures Sum(xs, f) == 0
  {
    if xs != [] {
      assert f(xs[0]) == 0 by {
        assert xs[0] in xs;
      }
      assert forall x :: x in xs[1..] ==> f(x) == 0 by {
        forall x | x in xs[1..] ensures f(x) == 0 {
          assert x in xs;
        }
      }
      SumZero(xs[1..], f);
    }
  }

  /** A sum of non-negative terms is non-negative. */
  lemma {:induction false} SumNonNegative<T(!new)>(xs: seq<T>, f: T -> int)
    ensures (forall x :: x in xs ==> f(x) >= 0) ==> Sum(xs, f) >= 0
  {
    if xs != [] && forall x :: x in xs ==> f(x) >= 0 {
      assert xs[0] in xs;
      assert forall x :: x in xs[1..] ==> x in xs;
      SumNonNegative(xs[1..], f);
    }
  }

  /** `new Set(xs.map(f))`. */
  function Image<T(!new), U>(xs: seq<T>, f: T -> U): (r: set<U>)
    ensures |r| <= |xs|
    ensures forall i :: 0 <= i < |xs| ==> f(xs[i]) in r
    ensures forall u :: u in r ==> exists x :: x in xs && f(x) == u
    ensures xs != [] ==> |r| >= 1
  {
    if xs == [] then {}
    else {f(xs[0])} + Image(xs[1..], f)
  }

  // ---------------------------------------------------------------------
  // Stable sorting by an integer key (`xs.sort((a, b) => key(a) - key(b))`).
  // JavaScript's sort is stable, so elements with equal keys keep their order.

  ghost predicate SortedBy<T(!new)>(s: seq<T>, key: T -> int)
  {
    forall i, j :: 0 <= i < j < |s| ==> key(s[i]) <= key(s[j])
  }

  /** Insert `x` before the first element whose key is not smaller. */
  function Insert<T(!new)>(x: T, s: seq<T>, key: T -> int): (r: seq<T>)
    ensures |r| == |s| + 1
    ensures multiset(r) == multiset(s) + multiset{x}
    ensures forall y :: y in r <==> y == x || y in s
  {
    if s == [] || key(x) <= key(s[0]) then [x] + s
    else
      assert s == [s[0]] + s[1..];
      [s[0]] + Insert(x, s[1..], key)
  }

  /** Inserting into a sorted list keeps it sorted. */
  lemma {:induction false} InsertSorted<T(!new)>(x: T, s: seq<T>, key: T -> int)
    requires SortedBy(s, key)
    ensures SortedBy(Insert(x, s, key), key)
  {
    var r := Insert(x, s, key);
    if s == [] || key(x) <= key(s[0]) {
      assert r == [x] + s;
      forall i, j | 0 <= i < j < |r| ensures key(r[i]) <= key(r[j]) {
        assert r[j] == s[j - 1];
        if i > 0 {
          assert r[i] == s[i - 1];
        } else {
          assert key(s[0]) <= key(s[j - 1]);
        }
      }
    } else {
      var rest := Insert(x, s[1..], key);
      assert r == [s[0]] + rest;
      assert SortedBy(s[1..], key) by {
        forall i, j | 0 <= i < j < |s[1..]| ensures key(s[1..][i]) <= key(s[1..][j]) {
          assert s[1..][i] == s[i + 1] && s[1..][j] == s[j + 1];
        }
      }
      InsertSorted(x, s[1..], key);
      forall i, j | 0 <= i < j < |r| ensures key(r[i]) <= key(r[j]) {
        assert r[j] == rest[j - 1];
        if i > 0 {
          assert r[i] == rest[i - 1];
        } else {
          var y := rest[j - 1];
          assert y in rest;
          if y != x {
            var k :| 0 <= k < |s[1..]| && s[1..][k] == y;
            assert s[k + 1] == y;
          }
        }
      }
    }
  }

  /** Insertion sort, ascending by `key`, stable. */
  function SortBy<T(!new)>(xs: seq<T>, key: T -> int): (r: seq<T>)
    ensures |r| == |xs|
    ensures multiset(r) == multiset(xs)
    ensures SortedBy(r, key)
  {
    if xs == [] then []
    else
      assert xs == [xs[0]] + xs[1..];
      InsertSorted(xs[0], SortBy(xs[1..], key), key);
      Insert(xs[0], SortBy(xs[1..], key), key)
  }

  /** The elements whose key is `k`. */
  function KeyIs<T(!new)>(key: T -> int, k: int): T -> bool
  {
    y => key(y) == k
  }

  /** Among the elements with one key value, `Insert` puts `x` first and
      keeps the others in order. */
  lemma {:induction false} InsertStable<T(!new)>(x: T, s: seq<T>, key: T -> int, k: int)
    ensures Filter(Insert(x, s, key), KeyIs(key, k))
            == (if key(x) == k then [x] else []) + Filter(s, KeyIs(key, k))
  {
    var p := KeyIs(key, k);
    if s == [] || key(x) <= key(s[0]) {
      assert Insert(x, s, key) == [x] + s;
      FilterCons(x, s, p);
    } else {
      var rest := Insert(x, s[1..], key);
      assert Insert(x, s, key) == [s[0]] + rest;
      var px: seq<T> := if p(x) then [x] else [];
      var ps: seq<T> := if p(s[0]) then [s[0]] else [];
      assert px == [] || ps == [];
      calc {
        Filter([s[0]] + rest, p);
        { FilterCons(s[0], rest, p); }
        ps + Filter(rest, p);
        { InsertStable(x, s[1..], key, k); }
        ps + (px + Filter(s[1..], p));
        { SwapEmpty(ps, px, Filter(s[1..], p)); }
        px + (ps + Filter(s[1..], p));
        { FilterCons(s[0], s[1..], p); assert [s[0]] + s[1..] == s; }
        px + Filter(s, p);
      }
    }
  }

  /** Of two sequences at least one of which is empty, either may go first. */
  lemma SwapEmpty<T>(a: seq<T>, b: seq<T>, t: seq<T>)
    requires a == [] || b == []
    ensures a + (b + t) == b + (a + t)
  {
    if a == [] {
      assert a + (b + t) == b + t;
    } else {
      assert b + (a + t) == a + t;
    }
  }

  /** Stability: restricted to any one key value, the sorted list shows the
      elements in their original order. */
  lemma {:induction false} SortStable<T(!new)>(xs: seq<T>, key: T -> int, k: int)
    ensures Filter(SortBy(xs, key), KeyIs(key, k)) == Filter(xs, KeyIs(key, k))
  {
    if xs != [] {
      var p := KeyIs(key, k);
      var sorted := SortBy(xs[1..], key);
      SortByCons(xs, key);
      calc {
        Filter(Insert(xs[0], sorted, key), p);
        { InsertStable(xs[0], sorted, key, k); }
        (if p(xs[0]) then [xs[0]] else []) + Filter(sorted, p);
        { SortStable(xs[1..], key, k); }
        (if p(xs[0]) then [xs[0]] else []) + Filter(xs[1..], p);
        { FilterCons(xs[0], xs[1..], p); assert [xs[0]] + xs[1..] == xs; }
        Filter(xs, p);
      }
    }
  }

  /** One step of `SortBy`. */
  lemma SortByCons<T(!new)>(xs: seq<T>, key: T -> int)
    requires xs != []
    ensures SortBy(xs, key) == Insert(xs[0], SortBy(xs[1..], key), key)
  {
  }
}
