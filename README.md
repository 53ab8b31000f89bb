# revolt representation core in Dafny

This project models the representation layer of the `revolt` evolutionary-computation
library. That layer covers:

- features, which hold one value and can be duplicated with a new one;
- genes, which are features that mutate by regenerating their value from a random source and
  report their validity;
- chromosomes, which are ordered sequences of genes;
- the `Verifiable`, `FlatMappable` and `Foldable` mixins;
- individuals, which pair a representation with a fitness;
- the domain services: the equality threshold and the combinatorial hash.

The layout has one module per source file:

| module | file | source |
|---|---|---|
| `Numbers` | numbers.dfy | `i32` with wrap-around, `f64` as `NaN \| Num(real)` (helpers) |
| `Verifiable` | verifiable.dfy | src/mixins/verifiable.rs |
| `FlatMappable` | flat_mappable.dfy | src/mixins/flat_mappable.rs |
| `Foldable` | foldable.dfy | src/mixins/foldable.rs |
| `Feature` | feature.dfy | src/repr/feature.rs |
| `Representation` | representation.dfy | src/repr/representation.rs |
| `Gene` | gene.dfy | src/genetics/genes/gene.rs |
| `Chromosome` | chromosome.dfy | src/genetics/chromosomes/chromosome.rs |
| `Individuals` | individual.dfy | src/individual.rs |
| `Domain` | domain.dfy | src/domain.rs |

Modelling choices:

- **Traits become records of functions.** A Rust trait with methods the implementor supplies
  becomes a datatype of functions: `FeatureOps`, `GeneOps` and `RepresentationOps`. A generic
  algorithm takes one of these records as a parameter. The promise every feature makes, that
  `value(duplicate_with_value(f, v)) == v`, is the ghost predicate `Feature.Lawful`.
- **Values are immutable.** Features, genes and chromosomes are Dafny values. So an operation
  that takes `&self` (`value`, `duplicate_with_value`, `mutate`, `verify`, `flatten`) cannot
  change its receiver. Dafny functions are also deterministic, so repeating `verify()` gives
  the same answer.
- **The random source is opaque.** It is the abstract type `Gene.Rng`, passed to `generate` and
  `mutate` as an argument.
- **Mutable state lives in classes.** An `Individual` is a class: callers assign its public
  `fitness` field. The thread-local equality threshold is the class `Domain.ThresholdCell`.
- **Floats are `NaN` or a real.** `f64` is modelled as `F64 = NaN | Num(real)`. IEEE `==` is
  "both are numbers and equal"; `<` is false whenever either side is NaN.
- **`i32` arithmetic wraps.** Both `value + 1` in `SimpleGene::generate` and
  `31 * result + element_hash` in `hash` wrap around in two's complement, as release builds do.

The source mixes several drafts of one API. This model settles on one reading:

- `value` is the accessor. gene.rs calls it `get_value`.
- There is one validity predicate. Rust calls it `verify` in verifiable.rs and individual.rs, and
  `is_valid` in gene.rs and chromosome.rs.
- `flatten` returns a sequence. individual.rs:60 returns a single `T`.

Fitness equality is exact `==` (src/individual.rs:82); no tolerance is applied, so none is
modelled.

## Model

| member | source | states |
|---|---|---|
| `Numbers.Wrap` | src/domain.rs:46-47 | the result lies in `i32`, equals its argument when that is already in range, and differs from it by a multiple of 2^32 |
| `Numbers.FloatEqReflexiveIffNumber` | src/individual.rs:82 | an `f64` is `==` to itself exactly when it is not NaN |
| `Verifiable.DefaultVerify` | src/mixins/verifiable.rs:2-20 | the default `verify`, which a type with an empty `impl Verifiable` gets, holds of every value |
| `FlatMappable.ConcatMapAppend` | src/mixins/flat_mappable.rs:5 | concat-map of `xs ++ ys` is concat-map of `xs` followed by concat-map of `ys` |
| `FlatMappable.ConcatMapSingletonIsIdentity` | src/mixins/flat_mappable.rs:4-6 | mapping each element to a one-element sequence returns the input |
| `FlatMappable.ConcatMapNothingIsEmpty` | src/mixins/flat_mappable.rs:4-6 | mapping each element to nothing returns nothing |
| `FlatMappable.ConcatMapLength` | src/mixins/flat_mappable.rs:4-6 | the length of the result is the sum of `\|f(x)\|` over the input |
| `FlatMappable.ConcatMapMembership` | src/mixins/flat_mappable.rs:4-6 | `y` is in the result iff `y` is in `f(x)` for some input element `x` |
| `FlatMappable.FlatMapSingletonIsFlatten` | src/mixins/flat_mappable.rs:4-6 | `flat_map(x => [x])` equals `flatten()` |
| `FlatMappable.FlatMapNothingIsEmpty` | src/mixins/flat_mappable.rs:4-6 | `flat_map(x => [])` is empty |
| `FlatMappable.FlatMapLength` | src/mixins/flat_mappable.rs:4-6 | the length of `flat_map(f)` is the sum of `\|f(x)\|` over the flattened leaves |
| `Foldable.FoldLeftAppend` | src/mixins/foldable.rs:2 | folding `xs ++ ys` folds `ys` starting from the fold of `xs` |
| `Foldable.FoldLeftSnoc` | src/mixins/foldable.rs:2 | folding one more element at the end is one more `combine` step |
| `Feature.DuplicateWithValue` | src/repr/feature.rs:41-48 | for a feature type that keeps the contract, the duplicate holds exactly the given value |
| `Feature.DuplicateTwiceKeepsLast` | src/repr/feature.rs:41-48 | duplicating with `v`, then with `w`, leaves the value `w` |
| `Feature.MyGeneDuplicateWithValue` | src/repr/feature.rs:25-27 | the documented example's duplicate holds the given value |
| `Feature.MyGeneIsLawful` | src/repr/feature.rs:16-28 | the documented example keeps the feature contract, and its duplicate is `MyGene { value: v }` |
| `Gene.Mutate` | src/genetics/genes/gene.rs:12-15 | the mutated gene's value is `generate(self, value, rng)` |
| `Gene.MutateTwice` | src/genetics/genes/gene.rs:12-15 | a second mutation regenerates from the first mutation's value |
| `Gene.SimpleDuplicateWithValue` | src/genetics/genes/gene.rs:29-34 | the duplicate has the new value and the original's validity flag |
| `Gene.SimpleFlatten` | src/genetics/genes/gene.rs:43-46 | a `SimpleGene` flattens to the one leaf `[value]` |
| `Gene.SimpleGenerate` | src/genetics/genes/gene.rs:49-52 | the result is `value + 1`; at `i32::MAX` it wraps to `i32::MIN` |
| `Gene.SimpleGeneIsLawful` | src/genetics/genes/gene.rs:24-35 | `SimpleGene` keeps the feature contract |
| `Gene.SimpleVerifyIsFlag` | src/genetics/genes/gene.rs:37-41 | a `SimpleGene` is valid exactly when its stored flag is set |
| `Gene.SimpleMutate` | src/genetics/genes/gene.rs:12-15 | mutating a `SimpleGene` adds one to its value (wrapping at `i32::MAX`) and keeps its validity |
| `Gene.SimpleGenerateIgnoresRng` | src/genetics/genes/gene.rs:50-52 | `generate` depends only on the current value, not on the draw or the receiver |
| `Gene.SimpleMutateIgnoresRng` | src/genetics/genes/gene.rs:12-15 | mutating a `SimpleGene` gives the same gene whatever the draw |
| `Gene.SimpleFlatMap` | src/genetics/genes/gene.rs:43-46 | `flat_map(f)` on a `SimpleGene` is `f(value)` |
| `Chromosome.IsEmpty` | src/genetics/chromosomes/chromosome.rs:18-20 | `is_empty()` holds iff `size() == 0`, i.e. iff there is no gene |
| `Chromosome.Contains` | src/genetics/chromosomes/chromosome.rs:26-28 | `contains(g)` holds iff some gene equals `g` |
| `Chromosome.ContainsAll` | src/genetics/chromosomes/chromosome.rs:22-24 | `contains_all(other)` holds iff every gene of `other` is contained (so it holds for an empty `other`) |
| `Chromosome.IsValid` | src/genetics/chromosomes/chromosome.rs:34-36 | the chromosome is valid iff every gene is valid |
| `Chromosome.EmptyChromosome` | src/genetics/chromosomes/chromosome.rs:18-36 | the empty chromosome is empty, valid and flattens to nothing |
| `Chromosome.FlattenAppend` | src/genetics/chromosomes/chromosome.rs:30-32 | flattening genes `a ++ b` gives `flatten(a) ++ flatten(b)` |
| `Chromosome.FlattenThree` | src/genetics/chromosomes/chromosome.rs:14-32 | genes `[g1, g2, g3]` have size 3 and flatten to `g1.flatten() ++ g2.flatten() ++ g3.flatten()` |
| `Chromosome.FlattenMembership` | src/genetics/chromosomes/chromosome.rs:30-32 | a leaf is in `flatten()` iff some gene's `flatten()` contains it |
| `Chromosome.FlattenSingleLeaves` | src/genetics/chromosomes/chromosome.rs:14-32 | when every gene flattens to one leaf, `\|flatten()\| == size()` and leaf i is gene i's leaf |
| `Chromosome.SimpleChromosomeFlatten` | src/genetics/chromosomes/chromosome.rs:30-32 | a chromosome of `SimpleGene`s flattens to their values, in order |
| `Chromosome.IsValidAppend` | src/genetics/chromosomes/chromosome.rs:34-36 | genes `a ++ b` are valid iff both `a` and `b` are |
| `Chromosome.DefaultVerifiedGenesAreValid` | src/genetics/chromosomes/chromosome.rs:34-36 | a chromosome whose gene type keeps the default `verify` is valid, whatever its genes |
| `Chromosome.OneInvalidGeneInvalidates` | src/genetics/chromosomes/chromosome.rs:34-36 | a single invalid gene makes the chromosome invalid |
| `Chromosome.FoldAppend` | src/repr/representation.rs:6 | folding a chromosome of genes `a ++ b` continues the fold of `a` over the leaves of `b` |
| `Individuals.Individual.constructor` | src/individual.rs:27-34 | `new(r)` stores `r` with a NaN fitness, so the individual is not evaluated |
| `Individuals.Individual.AssignFitness` | src/individual.rs:17 | assigning the public fitness changes only the fitness; afterwards the individual is evaluated iff the value is a number |
| `Individuals.NewThenEvaluate` | src/individual.rs:27-42 | a new individual is evaluated once a number is assigned as its fitness, and it keeps its representation |
| `Individuals.NewIsNotEqualToItself` | src/individual.rs:27-34 | an individual straight from `new` is not `==` to itself |
| `Individuals.ReflexiveEqIsEquivalence` | src/individual.rs:80-91 | the corrected equality (NaN fitness equal to NaN fitness) is reflexive, symmetric and transitive, and agrees with `eq` once either side is evaluated |
| `Individuals.UnevaluatedEqualsNothing` | src/individual.rs:80-83 | an individual with a NaN fitness equals no individual, on either side of `==` |
| `Individuals.EqReflexiveIffEvaluated` | src/individual.rs:80-83 | an individual equals itself iff it has been evaluated |
| `Individuals.EqIsPartialEquivalence` | src/individual.rs:80-83 | equality is symmetric and transitive; equal individuals have equal representations and the same numeric fitness |
| `Individuals.ChromosomeIndividual` | src/individual.rs:36-72 | over a chromosome, `size`, `verify`, `flatten` and `fold` give the gene count, the genes' conjoined validity, their concatenated leaves, and the left fold over those leaves |
| `Domain.ThresholdCell.constructor` | src/domain.rs:7-11 | the threshold starts at 0.0001 |
| `Domain.ThresholdCell.GetEqualityThreshold` | src/domain.rs:25-27 | while every write goes through the setter (`Valid()`), the threshold read is a non-negative number |
| `Domain.ThresholdCell.SetEqualityThreshold` | src/domain.rs:13-23 | a negative value fails and keeps the old threshold; NaN fails the same way; any other value is stored exactly |
| `Domain.HashEmpty` | src/domain.rs:43 | `hash([]) == 1` |
| `Domain.HashSnoc` | src/domain.rs:43-48 | `hash(xs ++ [x]) == 31 * hash(xs) + h(x)`, wrapping in `i32` |
| `Domain.HashSingleton` | src/domain.rs:43-48 | `hash([x]) == 31 + h(x)`, wrapping in `i32` |
| `Domain.HashDependsOnlyOnItemHashes` | src/domain.rs:42-49 | two sequences with the same item hashes in the same order have the same hash |
| `Domain.HashIsOrderSensitive` | src/domain.rs:42-49 | swapping two items can change the hash |
| `Domain.ComputeHash` | src/domain.rs:42-49 | the iterative fold from 1 computes `hash` |

## Left out

- The global `RANDOM` generator and its mutex (src/domain.rs:30, src/genetics/genes/gene.rs:13). The random source is an opaque argument, so how drawing advances its state is not modelled.
- `TO_STRING_MODE` and `ToStringMode` (src/domain.rs:31-38). No rendering code is part of this model.
- The thread-local isolation of `EQUALITY_THRESHOLD` (src/domain.rs:9-11). One `ThresholdCell` is one thread's cell; isolation between threads is a concurrency property.
- Domain.ThresholdCell.SetEqualityThreshold: a refused value returns a `Fail` outcome where the source panics. The panic messages are not modelled.
- `DefaultHasher` and the `u64 as i32` truncation (src/domain.rs:44-46). The element hash `h` is an argument that already yields an `i32`.
- Domain.HashSnoc: overflow of `31 * result + element_hash` wraps, as in release builds. Debug builds panic instead, and that is not modelled.
- Gene.SimpleGenerate: `value + 1` wraps at `i32::MAX`, as in release builds. A debug build panics there, so the property test at src/genetics/genes/gene.rs:63-66 cannot hold for `i32::MAX`.
- Feature.DuplicateWithValue: "every other attribute is preserved" cannot be stated for an arbitrary feature type. It is stated for `SimpleGene` (`Gene.SimpleDuplicateWithValue`).
- `PartialEq` on representations and genes (src/individual.rs:78, src/genetics/chromosomes/chromosome.rs:10) is modelled as Dafny's structural equality, hence reflexive. A non-reflexive `PartialEq`, such as one on a type holding an `f64` NaN, is not modelled. `Individuals.EqReflexiveIffEvaluated` (evaluated implies equal to itself) and `Chromosome.Contains` (`g in genes` implies `contains(g)`) rely on this.
- Direct writes to the public thread-local `EQUALITY_THRESHOLD` cell (src/domain.rs:10) are not modelled. Such a write skips the checks at src/domain.rs:14-19, so `Valid()` holds only while every write goes through `SetEqualityThreshold`.
- IEEE-754 beyond "NaN or a real" and IEEE `==`/`<`. Fitness equality within the equality threshold is not modelled, since src/individual.rs:82 uses exact `==`.
- `Foldable::fold` and `Representation::size` have no body in the source (src/mixins/foldable.rs, src/repr/representation.rs). `size` and `verify` are functions the representation supplies. `fold` is fixed here as the left fold over `flatten`; the source leaves it to each representation.
- Reassigning an individual's public `representation` field is not modelled by a method. Only the fitness field is written.
- `Chromosome::genes()` is the gene sequence itself, so its cloning is not modelled.
- `PhantomData` markers, the `Clone`/`Debug` derives and the proptest/expectest harness are not modelled.

## Findings

| source | as written | input that shows it | evidently intended | confidence | as-written member | corrected member |
|---|---|---|---|---|---|---|
| src/individual.rs:80-91 | `eq` compares fitnesses with IEEE `==`, yet `impl Eq for Individual` promises that `==` is reflexive | any individual straight from `Individual::new(r)`: its fitness is NaN, so `ind == ind` is false | equality that is reflexive, e.g. NaN fitness equal to NaN fitness (or no `impl Eq`) | high (not executed) | `Individuals.NewIsNotEqualToItself` | `Individuals.ReflexiveEqIsEquivalence` |
