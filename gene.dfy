/** Genes: features that can mutate (regenerate their value from a random
    source) and report their validity, and `SimpleGene`, the gene that holds an
    `i32`, generates `value + 1` and carries a fixed validity flag. */
module Gene {
  import opened Numbers
  import opened Feature
  import opened FlatMappable

  /** The random source a gene draws from; its state is never inspected. */
  type Rng

  /** What a gene type `G` holding a `T` provides: the feature operations, the
      value-production rule `generate(self, current, rng)`, its validity
      predicate and its `flatten`. */
  datatype GeneOps<!T, !G> = GeneOps(
    feature: FeatureOps<T, G>,
    generate: (G, T, Rng) -> T,
    verify: G -> bool,
    flatten: G -> seq<T>)

  /** `mutate`: a new gene whose value is what `generate` draws from the
      current value. The receiver is a value and stays as it was. */
  function Mutate<T(!new), G(!new)>(ops: GeneOps<T, G>, g: G, rng: Rng): (m: G)
    requires Lawful(ops.feature)
    ensures ops.feature.value(m) == ops.generate(g, ops.feature.value(g), rng)
  {
    DuplicateWithValue(ops.feature, g, ops.generate(g, ops.feature.value(g), rng))
  }

  /** Mutating a mutated gene regenerates from the first mutation's value:
      the second draw is applied to what the first draw produced. */
  lemma MutateTwice<T(!new), G(!new)>(ops: GeneOps<T, G>, g: G, rng1: Rng, rng2: Rng)
    requires Lawful(ops.feature)
    ensures var m := Mutate(ops, g, rng1);
            ops.feature.value(Mutate(ops, m, rng2)) == ops.generate(m, ops.generate(g, ops.feature.value(g), rng1), rng2)
  {
  }

  datatype SimpleGene = SimpleGene(value: I32, isValid: bool)

  /** `duplicate_with_value`: the new value, the same validity flag. */
  function SimpleDuplicateWithValue(g: SimpleGene, v: I32): (d: SimpleGene)
    ensures d.value == v && d.isValid == g.isValid
  {
    SimpleGene(v, g.isValid)
  }

  /** `flatten`: the one leaf this gene holds. */
  function SimpleFlatten(g: SimpleGene): (leaves: seq<I32>)
    ensures |leaves| == 1 && leaves[0] == g.value
  {
    [g.value]
  }

  /** `generate`: the successor of the current value, whatever the draw;
      `i32::MAX` wraps to `i32::MIN`. */
  function SimpleGenerate(g: SimpleGene, v: I32, rng: Rng): (r: I32)
    ensures v < I32_MAX ==> r == v + 1
    ensures v == I32_MAX ==> r == I32_MIN
  {
    Wrap(v + 1)
  }

  function SimpleGeneOps(): GeneOps<I32, SimpleGene>
  {
    GeneOps(
      FeatureOps((g: SimpleGene) => g.value, SimpleDuplicateWithValue),
      SimpleGenerate,
      (g: SimpleGene) => g.isValid,
      SimpleFlatten)
  }

  /** `SimpleGene` keeps the feature contract. */
  lemma SimpleGeneIsLawful()
    ensures Lawful(SimpleGeneOps().feature)
  {
  }

  /** `SimpleGene`'s validity is its stored flag. */
  lemma SimpleVerifyIsFlag(g: SimpleGene)
    ensures SimpleGeneOps().verify(g) <==> g.isValid
  {
  }

  /** `mutate` on a `SimpleGene`: value plus one (wrapping at `i32::MAX`),
      the validity flag carried over. */
  function SimpleMutate(g: SimpleGene, rng: Rng): (m: SimpleGene)
    ensures g.value < I32_MAX ==> m.value == g.value + 1
    ensures g.value == I32_MAX ==> m.value == I32_MIN
    ensures m.isValid == g.isValid
    ensures SimpleGeneOps().verify(m) == SimpleGeneOps().verify(g)
  {
    SimpleGeneIsLawful();
    Mutate(SimpleGeneOps(), g, rng)
  }

  /** `generate` ignores the random source and the receiver: its result
      depends on the current value alone. */
  lemma SimpleGenerateIgnoresRng(g1: SimpleGene, g2: SimpleGene, v: I32, rng1: Rng, rng2: Rng)
    ensures SimpleGenerate(g1, v, rng1) == SimpleGenerate(g2, v, rng2)
  {
  }

  /** Hence mutating one `SimpleGene` with two different draws gives the
      same gene. */
  lemma SimpleMutateIgnoresRng(g: SimpleGene, rng1: Rng, rng2: Rng)
    ensures SimpleMutate(g, rng1) == SimpleMutate(g, rng2)
  {
  }

  /** `flat_map` on a `SimpleGene` applies `f` to its one leaf. */
  lemma SimpleFlatMap<U>(g: SimpleGene, f: I32 -> seq<U>)
    ensures FlatMap(SimpleFlatten, g, f) == f(g.value)
  {
    assert ConcatMap<I32, U>([g.value], f) == f(g.value) + ConcatMap<I32, U>([], f);
  }
}
