/**
  List operations of the Python runtime that several components share:
  `list.remove(x)` (first occurrence), and order-preserving filtering as a
  `WHERE` clause or a list comprehension with a condition performs it.
*/
module Seqs {

  /** `x` first occurs in `xs` at index `i`. */
  predicate FirstAt<T(==)>(xs: seq<T>, x: T, i: int) {
    0 <= i < |xs| && xs[i] == x && x !in xs[..i]
  }

  /** `xs` with its first occurrence of `x` removed; `xs` itself when `x`
      does not occur (the caller decides whether that is an error). */
  function RemoveFirst<T(==)>(xs: seq<T>, x: T): (r: seq<T>)
    ensures x !in xs ==> r == xs
    ensures x in xs ==> exists i :: FirstAt(xs, x, i) && r == xs[..i] + xs[i + 1..]
  {
    if xs == [] then xs
    else if xs[0] == x then
      assert FirstAt(xs, x, 0);
      assert xs == [xs[0]] + xs[1..];
      xs[1..]
    else
      var rest := RemoveFirst(xs[1..], x);
      RemoveFirstPastHead(xs, x, rest);
      [xs[0]] + rest
  }

  /** The first occurrence of `x` in the tail of `xs`, shifted by one, is its
      first occurrence in `xs` when the head is not `x`. */
  lemma RemoveFirstPastHead<T>(xs: seq<T>, x: T, rest: seq<T>)
    requires xs != [] && xs[0] != x
    requires x in xs[1..] ==> exists i :: FirstAt(xs[1..], x, i) && rest == xs[1..][..i] + xs[1..][i + 1..]
    ensures x in xs ==> exists i :: FirstAt(xs, x, i) && [xs[0]] + rest == xs[..i] + xs[i + 1..]
  {
    assert xs == [xs[0]] + xs[1..];
    if x in xs[1..] {
      var i :| FirstAt(xs[1..], x, i) && rest == xs[1..][..i] + xs[1..][i + 1..];
      assert xs[..i + 1] == [xs[0]] + xs[1..][..i];
      assert FirstAt(xs, x, i + 1);
      assert [xs[0]] + rest == xs[..i + 1] + xs[i + 2..];
    }
  }

  /** Removal takes exactly one copy of `x` away, when there is one. */
  lemma {:induction false} RemoveFirstMultiset<T>(xs: seq<T>, x: T)
    ensures multiset(RemoveFirst(xs, x)) == multiset(xs) - multiset{x}
  {
    if xs != [] {
      assert xs == [xs[0]] + xs[1..];
      if xs[0] != x {
        RemoveFirstMultiset(xs[1..], x);
      }
    }
  }

  /** Removing the element just appended gives the list back, provided it
      did not occur before. */
  lemma {:induction false} RemoveFirstOfAppended<T>(xs: seq<T>, x: T)
    requires x !in xs
    ensures RemoveFirst(xs + [x], x) == xs
  {
    if xs == [] {
      assert xs + [x] == [x];
    } else {
      assert (xs + [x])[0] == xs[0];
      assert (xs + [x])[1..] == xs[1..] + [x];
      RemoveFirstOfAppended(xs[1..], x);
      assert xs == [xs[0]] + xs[1..];
    }
  }

  /** The elements of `xs` satisfying `p`, in their order in `xs`. */
  function Filter<T>(xs: seq<T>, p: T -> bool): (r: seq<T>)
    ensures |r| <= |xs|
    ensures forall k :: 0 <= k < |r| ==> p(r[k]) && r[k] in xs
    ensures forall k :: 0 <= k < |xs| && p(xs[k]) ==> xs[k] in r
  {
    if xs == [] then []
    else if p(xs[0]) then [xs[0]] + Filter(xs[1..], p)
    else Filter(xs[1..], p)
  }

  /** Filtering keeps relative order: the rows of a concatenation come out
      as the rows of each part, in the same order. */
  lemma {:induction false} FilterAppend<T>(xs: seq<T>, ys: seq<T>, p: T -> bool)
    ensures Filter(xs + ys, p) == Filter(xs, p) + Filter(ys, p)
  {
    if xs == [] {
      assert xs + ys == ys;
    } else {
      assert (xs + ys)[0] == xs[0];
      assert (xs + ys)[1..] == xs[1..] + ys;
      FilterAppend(xs[1..], ys, p);
    }
  }

  /** Nothing survives a filter no element satisfies. */
  lemma {:induction false} FilterNone<T>(xs: seq<T>, p: T -> bool)
    requires forall k :: 0 <= k < |xs| ==> !p(xs[k])
    ensures Filter(xs, p) == []
  {
    if xs != [] {
      assert forall k :: 0 <= k < |xs[1..]| ==> xs[1..][k] == xs[k + 1];
      FilterNone(xs[1..], p);
    }
  }

  /** A filter every element satisfies keeps the whole sequence. */
  lemma {:induction false} FilterAll<T>(xs: seq<T>, p: T -> bool)
    requires forall k :: 0 <= k < |xs| ==> p(xs[k])
    ensures Filter(xs, p) == xs
  {
    if xs != [] {
      assert forall k :: 0 <= k < |xs[1..]| ==> xs[1..][k] == xs[k + 1];
      FilterAll(xs[1..], p);
    }
  }

  /** A filter and its negation split the sequence between them: together
      they keep every element exactly once. */
  lemma {:induction false} FilterComplement<T>(xs: seq<T>, p: T -> bool, q: T -> bool)
    requires forall x :: q(x) == !p(x)
    ensures |Filter(xs, p)| + |Filter(xs, q)| == |xs|
    ensures multiset(Filter(xs, p)) + multiset(Filter(xs, q)) == multiset(xs)
  {
    if xs != [] {
      FilterComplement(xs[1..], p, q);
      assert xs == [xs[0]] + xs[1..];
    }
  }

  /** Two elements satisfying `p` at different places both survive the
      filter. */
  lemma {:induction false} FilterTwo<T>(xs: seq<T>, p: T -> bool, i: int, j: int)
    requires 0 <= i < j < |xs| && p(xs[i]) && p(xs[j])
    ensures |Filter(xs, p)| >= 2
  {
    if i > 0 {
      FilterTwo(xs[1..], p, i - 1, j - 1);
    } else {
      assert xs[1..][j - 1] == xs[j];
    }
  }

  /** Applies `f` to each element, in order. */
  function Map<T, U>(xs: seq<T>, f: T -> U): (r: seq<U>)
    ensures |r| == |xs|
    ensures forall k :: 0 <= k < |xs| ==> r[k] == f(xs[k])
  {
    if xs == [] then [] else [f(xs[0])] + Map(xs[1..], f)
  }
}
