/** The `Representation` role: a structural container with a size, a validity
    check, an in-order list of leaves and a left fold over those leaves. */
module Representation {
  import opened Foldable

  /** What a representation type `R` with leaves of type `T` provides. `size`
      counts the representation's features, which equals the number of leaves
      only when every feature contributes one leaf. */
  datatype RepresentationOps<!T, !R> = RepresentationOps(
    size: R -> nat,
    verify: R -> bool,
    flatten: R -> seq<T>)

  /** `fold`: left to right over the leaves, in `flatten` order. */
  function Fold<T, R, B>(ops: RepresentationOps<T, R>, r: R, initial: B, combine: (B, T) -> B): B
  {
    FoldLeft(ops.flatten(r), initial, combine)
  }
}
