/** Individuals: a candidate solution pairs a representation with a fitness
    score. The fitness is "not a number" until an evaluator assigns it; every
    structural query delegates to the representation. */
module Individuals {
  import opened Numbers
  import opened Foldable
  import opened Representation
  import opened Gene
  import Chromosome

  class Individual<T, R(==)> {
    var representation: R
    var fitness: F64

    /** `new`: the given representation, not yet evaluated. */
    constructor (representation: R)
      ensures this.representation == representation && fitness == NaN
      ensures !IsEvaluated()
    {
      this.representation := representation;
      fitness := NaN;
    }

    /** `size`: the representation's size. */
    function Size(ops: RepresentationOps<T, R>): nat
      reads this
    {
      ops.size(representation)
    }

    /** `is_evaluated`: the fitness is a number. */
    predicate IsEvaluated()
      reads this
    {
      !IsNaN(fitness)
    }

    /** `verify`: the representation's verdict. */
    predicate Verify(ops: RepresentationOps<T, R>)
      reads this
    {
      ops.verify(representation)
    }

    /** `flatten`: the representation's leaves. */
    function Flatten(ops: RepresentationOps<T, R>): seq<T>
      reads this
    {
      ops.flatten(representation)
    }

    /** `fold`: the representation's fold. */
    function Fold<B>(ops: RepresentationOps<T, R>, initial: B, combine: (B, T) -> B): B
      reads this
    {
      Representation.Fold(ops, representation, initial, combine)
    }

    /** `eq`: equal representations and IEEE-equal fitnesses. */
    predicate Eq(other: Individual<T, R>)
      reads this, other
    {
      representation == other.representation && FloatEq(fitness, other.fitness)
    }

    /** Equality as an `Eq` implementation needs it to be: equal
        representations, and fitnesses that are IEEE-equal or both NaN. */
    predicate ReflexiveEq(other: Individual<T, R>)
      reads this, other
    {
      representation == other.representation
      && (FloatEq(fitness, other.fitness) || (IsNaN(fitness) && IsNaN(other.fitness)))
    }

    /** An evaluator writing the public `fitness` field. */
    method AssignFitness(value: F64)
      modifies this`fitness
      ensures fitness == value && representation == old(representation)
      ensures IsEvaluated() <==> value.Num?
    {
      fitness := value;
    }
  }

  /** A fresh individual is unevaluated until a number is assigned to its
      fitness, and the assignment leaves its representation as it was. */
  method NewThenEvaluate<T, R(==)>(r: R, score: real) returns (ind: Individual<T, R>)
    ensures fresh(ind) && ind.representation == r
    ensures ind.fitness == Num(score) && ind.IsEvaluated()
  {
    ind := new Individual(r);
    assert !ind.IsEvaluated();
    ind.AssignFitness(Num(score));
  }

  /** `eq` as written is not reflexive: an individual straight from `new`
      is not equal to itself, although the type implements `Eq`. */
  method NewIsNotEqualToItself<T, R(==)>(r: R) returns (ind: Individual<T, R>)
    ensures ind.representation == r && !ind.IsEvaluated()
    ensures !ind.Eq(ind)
  {
    ind := new Individual(r);
  }

  /** The reflexive equality is an equivalence relation, and it agrees with
      `eq` as soon as one side has been evaluated. */
  lemma ReflexiveEqIsEquivalence<T, R>(a: Individual<T, R>, b: Individual<T, R>, c: Individual<T, R>)
    ensures a.ReflexiveEq(a)
    ensures a.ReflexiveEq(b) <==> b.ReflexiveEq(a)
    ensures a.ReflexiveEq(b) && b.ReflexiveEq(c) ==> a.ReflexiveEq(c)
    ensures a.IsEvaluated() || b.IsEvaluated() ==> (a.ReflexiveEq(b) <==> a.Eq(b))
  {
  }

  /** An unevaluated individual equals nothing, not even itself. */
  lemma UnevaluatedEqualsNothing<T, R>(a: Individual<T, R>, b: Individual<T, R>)
    requires !a.IsEvaluated()
    ensures !a.Eq(b) && !b.Eq(a)
  {
  }

  /** An individual equals itself exactly when it has been evaluated. */
  lemma EqReflexiveIffEvaluated<T, R>(a: Individual<T, R>)
    ensures a.Eq(a) <==> a.IsEvaluated()
  {
  }

  /** Equality is symmetric and transitive; equal individuals have the same
      representation and the same numeric fitness. */
  lemma EqIsPartialEquivalence<T, R>(a: Individual<T, R>, b: Individual<T, R>, c: Individual<T, R>)
    ensures a.Eq(b) <==> b.Eq(a)
    ensures a.Eq(b) && b.Eq(c) ==> a.Eq(c)
    ensures a.Eq(b) ==> a.representation == b.representation && a.fitness == b.fitness && a.IsEvaluated()
  {
  }

  /** An individual whose representation is a chromosome: its size is the gene
      count, it verifies exactly when every gene is valid, it flattens to its
      genes' leaves in order, and it folds over those leaves. */
  lemma ChromosomeIndividual<T, G, B>(ops: GeneOps<T, G>, ind: Individual<T, seq<G>>, initial: B, combine: (B, T) -> B)
    ensures ind.Size(Chromosome.AsRepresentation(ops)) == |ind.representation|
    ensures ind.Verify(Chromosome.AsRepresentation(ops))
        <==> forall i :: 0 <= i < |ind.representation| ==> ops.verify(ind.representation[i])
    ensures ind.Flatten(Chromosome.AsRepresentation(ops)) == Chromosome.Flatten(ops, ind.representation)
    ensures ind.Fold(Chromosome.AsRepresentation(ops), initial, combine)
         == FoldLeft(Chromosome.Flatten(ops, ind.representation), initial, combine)
  {
  }
}
