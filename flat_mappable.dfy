/** The `FlatMappable` mixin: a structure exposes its leaves in order through
    `flatten`, and `flat_map` applies a function to each leaf and concatenates
    the results, in order and without deduplication. */
module FlatMappable {

  /** Concat-map: `xs.into_iter().flat_map(f).collect()`. */
  function ConcatMap<A, B>(xs: seq<A>, f: A -> seq<B>): seq<B>
  {
    if xs == [] then [] else f(xs[0]) + ConcatMap(xs[1..], f)
  }

  /** `flat_map`: concat-map over the structure's own `flatten`. */
  function FlatMap<S, T, U>(flatten: S -> seq<T>, s: S, f: T -> seq<U>): seq<U>
  {
    ConcatMap(flatten(s), f)
  }

  /** Total number of elements the mapped leaves produce, counted from the
      last leaf backwards (an independent reference for the length). */
  function SumOfLengths<A, B>(xs: seq<A>, f: A -> seq<B>): nat
  {
    if xs == [] then 0 else SumOfLengths(xs[..|xs| - 1], f) + |f(xs[|xs| - 1])|
  }

  /** Concat-map distributes over concatenation of its input. */
  lemma {:induction false} ConcatMapAppend<A, B>(xs: seq<A>, ys: seq<A>, f: A -> seq<B>)
    ensures ConcatMap(xs + ys, f) == ConcatMap(xs, f) + ConcatMap(ys, f)
  {
    if xs == [] {
      assert xs + ys == ys;
    } else {
      assert (xs + ys)[1..] == xs[1..] + ys;
      ConcatMapAppend(xs[1..], ys, f);
    }
  }

  /** Mapping every leaf to a one-element sequence gives the leaves back. */
  lemma {:induction false} ConcatMapSingletonIsIdentity<A>(xs: seq<A>)
    ensures ConcatMap(xs, x => [x]) == xs
  {
    if xs != [] {
      ConcatMapSingletonIsIdentity(xs[1..]);
    }
  }

  /** Mapping every leaf to nothing gives nothing. */
  lemma {:induction false} ConcatMapNothingIsEmpty<A, B>(xs: seq<A>)
    ensures ConcatMap<A, B>(xs, (x: A) => []) == []
  {
    if xs != [] {
      ConcatMapNothingIsEmpty<A, B>(xs[1..]);
    }
  }

  /** The result's length is the sum of the lengths of the mapped leaves. */
  lemma {:induction false} ConcatMapLength<A, B>(xs: seq<A>, f: A -> seq<B>)
    ensures |ConcatMap(xs, f)| == SumOfLengths(xs, f)
  {
    if xs != [] {
      var init, last := xs[..|xs| - 1], xs[|xs| - 1];
      assert xs == init + [last];
      ConcatMapAppend(init, [last], f);
      assert ConcatMap([last], f) == f(last) + ConcatMap([], f);
      ConcatMapLength(init, f);
    }
  }

  /** An element is produced exactly when some leaf maps to it. */
  lemma {:induction false} ConcatMapMembership<A, B>(xs: seq<A>, f: A -> seq<B>, y: B)
    ensures y in ConcatMap(xs, f) <==> exists i :: 0 <= i < |xs| && y in f(xs[i])
  {
    if xs != [] {
      ConcatMapMembership(xs[1..], f, y);
      if y in f(xs[0]) {
        assert 0 <= 0 < |xs| && y in f(xs[0]);
      }
      if exists i :: 0 <= i < |xs[1..]| && y in f(xs[1..][i]) {
        var i :| 0 <= i < |xs[1..]| && y in f(xs[1..][i]);
        assert y in f(xs[i + 1]);
      }
      if exists i :: 0 <= i < |xs| && y in f(xs[i]) {
        var i :| 0 <= i < |xs| && y in f(xs[i]);
        if i > 0 {
          assert y in f(xs[1..][i - 1]);
        }
      }
    }
  }

  /** `flat_map(x => [x])` is `flatten()`. */
  lemma FlatMapSingletonIsFlatten<S, T>(flatten: S -> seq<T>, s: S)
    ensures FlatMap(flatten, s, x => [x]) == flatten(s)
  {
    ConcatMapSingletonIsIdentity(flatten(s));
  }

  /** `flat_map(x => [])` is empty. */
  lemma FlatMapNothingIsEmpty<S, T, U>(flatten: S -> seq<T>, s: S)
    ensures FlatMap<S, T, U>(flatten, s, (x: T) => []) == []
  {
    ConcatMapNothingIsEmpty<T, U>(flatten(s));
  }

  /** The length of `flat_map(f)` is the sum of `|f(x)|` over the leaves. */
  lemma FlatMapLength<S, T, U>(flatten: S -> seq<T>, s: S, f: T -> seq<U>)
    ensures |FlatMap(flatten, s, f)| == SumOfLengths(flatten(s), f)
  {
    ConcatMapLength(flatten(s), f);
  }
}
