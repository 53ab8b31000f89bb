/** The `Foldable` mixin: a left-to-right reduction over a structure's leaves,
    in the same order `flatten` lists them. */
module Foldable {

  /** Left fold: `combine` is applied to the accumulator and each element in
      turn, starting from `initial`, with no short-circuit. */
  function FoldLeft<A, B>(xs: seq<A>, initial: B, combine: (B, A) -> B): B
  {
    if xs == [] then initial else FoldLeft(xs[1..], combine(initial, xs[0]), combine)
  }

  /** Folding a concatenation folds the second part from where the first ended. */
  lemma {:induction false} FoldLeftAppend<A, B>(xs: seq<A>, ys: seq<A>, initial: B, combine: (B, A) -> B)
    ensures FoldLeft(xs + ys, initial, combine) == FoldLeft(ys, FoldLeft(xs, initial, combine), combine)
  {
    if xs == [] {
      assert xs + ys == ys;
    } else {
      assert (xs + ys)[1..] == xs[1..] + ys;
      FoldLeftAppend(xs[1..], ys, combine(initial, xs[0]), combine);
    }
  }

  /** Folding one more element at the end is one more step of `combine`. */
  lemma FoldLeftSnoc<A, B>(xs: seq<A>, x: A, initial: B, combine: (B, A) -> B)
    ensures FoldLeft(xs + [x], initial, combine) == combine(FoldLeft(xs, initial, combine), x)
  {
    FoldLeftAppend(xs, [x], initial, combine);
    assert [x][1..] == [];
  }
}
