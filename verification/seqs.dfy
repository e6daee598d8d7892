/** Sequence idioms the JavaScript source leans on everywhere: `Array.prototype.filter`,
    `includes`, `map`, and the "remove if present, append if absent" toggle used by the
    selection checkboxes and the role form. */
module Seqs {

  datatype Option<+T> = None | Some(value: T)

  /** `a` can be obtained from `b` by deleting elements: order is preserved. */
  predicate IsSubsequence<T(==)>(a: seq<T>, b: seq<T>)
  {
    if a == [] then true
    else if b == [] then false
    else if a[0] == b[0] then IsSubsequence(a[1..], b[1..])
    else IsSubsequence(a, b[1..])
  }

  /** `xs.filter(keep)`: the elements of `xs` that satisfy `keep`, in their original order. */
  function Filter<T(==)>(xs: seq<T>, keep: T -> bool): (r: seq<T>)
    ensures |r| <= |xs|
    ensures forall i :: 0 <= i < |r| ==> r[i] in xs && keep(r[i])
    ensures forall i :: 0 <= i < |xs| && keep(xs[i]) ==> xs[i] in r
    ensures IsSubsequence(r, xs)
  {
    if xs == [] then []
    else if keep(xs[0]) then [xs[0]] + Filter(xs[1..], keep)
    else Filter(xs[1..], keep)
  }

  /** `xs.map(f)`. */
  function Map<T, U>(xs: seq<T>, f: T -> U): (r: seq<U>)
    ensures |r| == |xs|
    ensures forall i :: 0 <= i < |xs| ==> r[i] == f(xs[i])
  {
    seq(|xs|, i requires 0 <= i < |xs| => f(xs[i]))
  }

  /** The first position whose element satisfies `p`, or `|xs|` when none does. */
  function FirstIndex<T>(xs: seq<T>, p: T -> bool): (k: nat)
    ensures k <= |xs|
    ensures k < |xs| ==> p(xs[k])
    ensures forall i :: 0 <= i < k ==> !p(xs[i])
  {
    if xs == [] then 0 else if p(xs[0]) then 0 else 1 + FirstIndex(xs[1..], p)
  }

  /** Number of elements of `xs` satisfying `p` (`xs.filter(p).length`). */
  function Count<T>(xs: seq<T>, p: T -> bool): (n: nat)
    ensures n <= |xs|
  {
    if xs == [] then 0 else (if p(xs[0]) then 1 else 0) + Count(xs[1..], p)
  }

  /** Sum of a sequence of naturals. */
  function Sum(xs: seq<nat>): nat
  {
    if xs == [] then 0 else xs[0] + Sum(xs[1..])
  }

  /** No element occurs twice. */
  predicate Distinct<T(==)>(xs: seq<T>)
  {
    forall i, j :: 0 <= i < j < |xs| ==> xs[i] != xs[j]
  }

  /** `xs.filter(y => y !== x)`: every occurrence of `x` removed, the rest kept in order. */
  function Without<T(==)>(xs: seq<T>, x: T): (r: seq<T>)
    ensures x !in r
    ensures forall i :: 0 <= i < |xs| && xs[i] != x ==> xs[i] in r
    ensures IsSubsequence(r, xs)
    ensures x in xs ==> |r| < |xs|
    ensures x !in xs ==> r == xs
  {
    var r := Filter(xs, y => y != x);
    if x in xs then
      FilterDropsSomething(xs, y => y != x, x);
      r
    else
      FilterKeepsAll(xs, y => y != x);
      r
  }

  /** The checkbox toggle of the list pages and of the role form: an element that is
      present is removed (every occurrence), an absent one is appended at the end. */
  function Toggle<T(==)>(xs: seq<T>, x: T): (r: seq<T>)
    ensures x in r <==> x !in xs
    ensures forall i :: 0 <= i < |r| ==> r[i] in xs || r[i] == x
    ensures forall i :: 0 <= i < |xs| && xs[i] != x ==> xs[i] in r
    ensures x in xs ==> IsSubsequence(r, xs) && |r| < |xs|
    ensures x in xs ==> r == Without(xs, x)
    ensures x !in xs ==> r == xs + [x]
    ensures x !in xs ==> |r| == |xs| + 1 && r[..|xs|] == xs && r[|xs|] == x
  {
    if x in xs then Without(xs, x) else xs + [x]
  }

  lemma {:induction false} FilterDropsSomething<T>(xs: seq<T>, keep: T -> bool, x: T)
    requires x in xs && !keep(x)
    ensures |Filter(xs, keep)| < |xs|
    decreases xs
  {
    if xs[0] == x {
      assert Filter(xs, keep) == Filter(xs[1..], keep);
    } else {
      assert x in xs[1..];
      FilterDropsSomething(xs[1..], keep, x);
    }
  }

  /** Filtering keeps everything when every element passes. */
  lemma {:induction false} FilterKeepsAll<T>(xs: seq<T>, keep: T -> bool)
    requires forall x :: x in xs ==> keep(x)
    ensures Filter(xs, keep) == xs
    decreases xs
  {
    if xs != [] {
      assert xs == [xs[0]] + xs[1..];
      FilterKeepsAll(xs[1..], keep);
    }
  }

  /** Filtering distributes over concatenation. */
  lemma {:induction false} FilterConcat<T>(a: seq<T>, b: seq<T>, keep: T -> bool)
    ensures Filter(a + b, keep) == Filter(a, keep) + Filter(b, keep)
    decreases a
  {
    if a == [] {
      assert a + b == b;
    } else {
      assert (a + b)[0] == a[0];
      assert (a + b)[1..] == a[1..] + b;
      FilterConcat(a[1..], b, keep);
    }
  }

  /** Filtering twice is filtering once by the conjunction. */
  lemma {:induction false} FilterFilter<T>(xs: seq<T>, k1: T -> bool, k2: T -> bool, both: T -> bool)
    requires forall x :: both(x) == (k1(x) && k2(x))
    ensures Filter(Filter(xs, k1), k2) == Filter(xs, both)
    decreases xs
  {
    if xs != [] {
      FilterFilter(xs[1..], k1, k2, both);
      if k1(xs[0]) {
        assert Filter(xs, k1) == [xs[0]] + Filter(xs[1..], k1);
        assert Filter(xs, k1)[0] == xs[0];
        assert Filter(xs, k1)[1..] == Filter(xs[1..], k1);
      }
    }
  }

  /** Filtering is idempotent. */
  lemma FilterIdempotent<T>(xs: seq<T>, keep: T -> bool)
    ensures Filter(Filter(xs, keep), keep) == Filter(xs, keep)
  {
    FilterKeepsAll(Filter(xs, keep), keep);
  }

  /** Toggling an absent element twice gives back the original list. */
  lemma ToggleTwiceRestores<T>(xs: seq<T>, x: T)
    requires x !in xs
    ensures Toggle(Toggle(xs, x), x) == xs
  {
    var t := xs + [x];
    assert x in t;
    FilterConcat(xs, [x], y => y != x);
    FilterKeepsAll(xs, y => y != x);
    assert Filter([x], y => y != x) == [];
    assert Without(t, x) == Filter(t, y => y != x);
  }

  /** Toggling a present element of a duplicate-free list and then toggling it again moves
      it to the end: the same elements, so the same checkboxes are ticked. */
  lemma ToggleTwiceSameElements<T>(xs: seq<T>, x: T)
    ensures forall i :: 0 <= i < |xs| ==> xs[i] in Toggle(Toggle(xs, x), x)
    ensures forall y :: y in Toggle(Toggle(xs, x), x) ==> y in xs
  {
  }

  /** Toggling keeps a duplicate-free selection duplicate-free. */
  lemma {:induction false} ToggleKeepsDistinct<T>(xs: seq<T>, x: T)
    requires Distinct(xs)
    ensures Distinct(Toggle(xs, x))
  {
    if x in xs {
      SubsequenceOfDistinct(Without(xs, x), xs);
    }
  }

  lemma {:induction false} SubsequenceOfDistinct<T>(a: seq<T>, b: seq<T>)
    requires IsSubsequence(a, b) && Distinct(b)
    ensures Distinct(a)
    decreases |b|
  {
    if a != [] && b != [] {
      if a[0] == b[0] {
        SubsequenceOfDistinct(a[1..], b[1..]);
        SubsequenceElements(a[1..], b[1..]);
        assert forall j :: 0 < j < |a| ==> a[j] in b[1..];
      } else {
        SubsequenceOfDistinct(a, b[1..]);
      }
    }
  }

  lemma {:induction false} SubsequenceElements<T>(a: seq<T>, b: seq<T>)
    requires IsSubsequence(a, b)
    ensures forall x :: x in a ==> x in b
    decreases |b|
  {
    if a != [] && b != [] {
      if a[0] == b[0] {
        SubsequenceElements(a[1..], b[1..]);
        assert a == [a[0]] + a[1..];
        assert b == [b[0]] + b[1..];
      } else {
        SubsequenceElements(a, b[1..]);
      }
    }
  }

  /** Counting splits over concatenation. */
  lemma {:induction false} CountConcat<T>(a: seq<T>, b: seq<T>, p: T -> bool)
    ensures Count(a + b, p) == Count(a, p) + Count(b, p)
    decreases a
  {
    if a == [] {
      assert a + b == b;
    } else {
      assert (a + b)[1..] == a[1..] + b;
      CountConcat(a[1..], b, p);
    }
  }

  /** Summation splits over concatenation. */
  lemma {:induction false} SumConcat(a: seq<nat>, b: seq<nat>)
    ensures Sum(a + b) == Sum(a) + Sum(b)
    decreases a
  {
    if a == [] {
      assert a + b == b;
    } else {
      assert (a + b)[1..] == a[1..] + b;
      SumConcat(a[1..], b);
    }
  }

  /** Counting is filtering and taking the length. */
  lemma {:induction false} CountIsFilterLength<T>(xs: seq<T>, p: T -> bool)
    ensures Count(xs, p) == |Filter(xs, p)|
    decreases xs
  {
    if xs != [] {
      CountIsFilterLength(xs[1..], p);
    }
  }

  /** Every sequence is a subsequence of itself. */
  lemma {:induction false} SubsequenceReflexive<T>(xs: seq<T>)
    ensures IsSubsequence(xs, xs)
    decreases xs
  {
    if xs != [] {
      SubsequenceReflexive(xs[1..]);
    }
  }

  /** Deleting elements twice is deleting elements once. */
  lemma {:induction false} SubsequenceTransitive<T>(a: seq<T>, b: seq<T>, c: seq<T>)
    requires IsSubsequence(a, b) && IsSubsequence(b, c)
    ensures IsSubsequence(a, c)
    decreases |c|
  {
    if a != [] && c != [] {
      if b[0] == c[0] {
        if a[0] == b[0] {
          SubsequenceTransitive(a[1..], b[1..], c[1..]);
        } else {
          SubsequenceTransitive(a, b[1..], c[1..]);
        }
      } else {
        SubsequenceTransitive(a, b, c[1..]);
        SubsequenceWeaken(a, c);
      }
    }
  }

  /** A subsequence of a tail is a subsequence of the whole. */
  lemma {:induction false} SubsequenceWeaken<T>(a: seq<T>, b: seq<T>)
    requires b != [] && IsSubsequence(a, b[1..])
    ensures IsSubsequence(a, b)
    decreases |b|, 0
  {
    if a != [] && a[0] == b[0] {
      SubsequenceTail(a, b[1..]);
    }
  }

  /** Dropping the first element of a subsequence keeps it a subsequence. */
  lemma {:induction false} SubsequenceTail<T>(a: seq<T>, b: seq<T>)
    requires a != [] && IsSubsequence(a, b)
    ensures IsSubsequence(a[1..], b)
    decreases |b|, 1
  {
    if a[0] == b[0] {
      SubsequenceWeaken(a[1..], b);
    } else {
      SubsequenceTail(a, b[1..]);
      SubsequenceWeaken(a[1..], b);
    }
  }

  /** Filtering by two predicates that agree everywhere gives the same result. */
  lemma {:induction false} FilterCongruent<T>(xs: seq<T>, k1: T -> bool, k2: T -> bool)
    requires forall x :: k1(x) == k2(x)
    ensures Filter(xs, k1) == Filter(xs, k2)
    decreases xs
  {
    if xs != [] {
      FilterCongruent(xs[1..], k1, k2);
    }
  }
}
