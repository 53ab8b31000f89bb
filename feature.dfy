/** The `Feature` contract: an atomic value holder that can be duplicated with
    a new value. Duplication builds a new value and never touches the original,
    which in this model holds because features are immutable values. */
module Feature {
  import opened Numbers

  /** The two operations a feature type `F` holding a `T` provides. */
  datatype FeatureOps<!T, !F> = FeatureOps(value: F -> T, duplicateWithValue: (F, T) -> F)

  /** What every feature type promises: the duplicate holds exactly the value
      it was given. */
  ghost predicate Lawful<T(!new), F(!new)>(ops: FeatureOps<T, F>)
  {
    forall f: F, v: T :: ops.value(ops.duplicateWithValue(f, v)) == v
  }

  /** `duplicate_with_value`, seen through the feature's contract. */
  function DuplicateWithValue<T(!new), F(!new)>(ops: FeatureOps<T, F>, f: F, v: T): (d: F)
    requires Lawful(ops)
    ensures ops.value(d) == v
  {
    ops.duplicateWithValue(f, v)
  }

  /** Duplicating twice keeps only the last value. */
  lemma DuplicateTwiceKeepsLast<T(!new), F(!new)>(ops: FeatureOps<T, F>, f: F, v: T, w: T)
    requires Lawful(ops)
    ensures ops.value(DuplicateWithValue(ops, DuplicateWithValue(ops, f, v), w)) == w
  {
  }

  /** The example feature of the documentation: a gene that holds one `i32`. */
  datatype MyGene = MyGene(value: I32)

  /** Its `duplicate_with_value`: a fresh `MyGene` holding the new value. */
  function MyGeneDuplicateWithValue(g: MyGene, v: I32): (d: MyGene)
    ensures d.value == v
  {
    MyGene(v)
  }

  function MyGeneOps(): FeatureOps<I32, MyGene>
  {
    FeatureOps((g: MyGene) => g.value, MyGeneDuplicateWithValue)
  }

  /** The documented example satisfies the feature contract, and as `MyGene`
      has no other attribute its duplicate is determined by the value alone. */
  lemma MyGeneIsLawful()
    ensures Lawful(MyGeneOps())
    ensures forall g: MyGene, v: I32 :: MyGeneDuplicateWithValue(g, v) == MyGene(v)
  {
  }
}
