/** Chromosomes: an ordered sequence of genes of one gene type, and the
    queries every chromosome derives from its genes. A chromosome is modelled
    by its gene sequence, `genes()`. */
module Chromosome {
  import opened Numbers
  import opened Gene
  import opened FlatMappable
  import opened Foldable
  import opened Representation
  import opened Verifiable

  /** `size`: the number of genes. */
  function Size<G>(genes: seq<G>): nat
  {
    |genes|
  }

  /** `is_empty`: there is no gene. */
  predicate IsEmpty<G>(genes: seq<G>)
    ensures IsEmpty(genes) <==> Size(genes) == 0
    ensures IsEmpty(genes) <==> genes == []
  {
    |genes| == 0
  }

  /** `contains`: some gene equals `g`. */
  predicate Contains<G(==)>(genes: seq<G>, g: G)
    ensures Contains(genes, g) <==> g in genes
  {
    genes != [] && (genes[0] == g || Contains(genes[1..], g))
  }

  /** `contains_all`: every gene of `other` is contained; vacuously true when
      `other` is empty. */
  predicate ContainsAll<G(==)>(genes: seq<G>, other: seq<G>)
    ensures ContainsAll(genes, other) <==> forall i :: 0 <= i < |other| ==> Contains(genes, other[i])
    ensures ContainsAll(genes, other) <==> forall x :: x in other ==> x in genes
  {
    other == [] || (Contains(genes, other[0]) && ContainsAll(genes, other[1..]))
  }

  /** `flatten`: each gene's leaves, gene after gene. */
  function Flatten<T, G>(ops: GeneOps<T, G>, genes: seq<G>): seq<T>
  {
    ConcatMap(genes, ops.flatten)
  }

  /** `is_valid`: every gene is valid; vacuously true when there is none. */
  predicate IsValid<T, G>(ops: GeneOps<T, G>, genes: seq<G>)
    ensures IsValid(ops, genes) <==> forall i :: 0 <= i < |genes| ==> ops.verify(genes[i])
  {
    genes == [] || (ops.verify(genes[0]) && IsValid(ops, genes[1..]))
  }

  /** A chromosome in the `Representation` role. */
  function AsRepresentation<T, G>(ops: GeneOps<T, G>): RepresentationOps<T, seq<G>>
  {
    RepresentationOps(
      (genes: seq<G>) => Size(genes),
      (genes: seq<G>) => IsValid(ops, genes),
      (genes: seq<G>) => Flatten(ops, genes))
  }

  /** The empty chromosome is empty, valid and flattens to nothing. */
  lemma EmptyChromosome<T, G>(ops: GeneOps<T, G>)
    ensures IsEmpty<G>([]) && IsValid<T, G>(ops, []) && Flatten<T, G>(ops, []) == []
  {
  }

  /** Flattening the genes `a ++ b` gives the leaves of `a`, then those of `b`. */
  lemma FlattenAppend<T, G>(ops: GeneOps<T, G>, a: seq<G>, b: seq<G>)
    ensures Flatten(ops, a + b) == Flatten(ops, a) + Flatten(ops, b)
  {
    ConcatMapAppend(a, b, ops.flatten);
  }

  /** A chromosome of three genes has size three and flattens to the three
      genes' leaves in order. */
  lemma FlattenThree<T, G>(ops: GeneOps<T, G>, g1: G, g2: G, g3: G)
    ensures Size([g1, g2, g3]) == 3
    ensures Flatten(ops, [g1, g2, g3]) == ops.flatten(g1) + ops.flatten(g2) + ops.flatten(g3)
  {
    var f := ops.flatten;
    calc {
      Flatten(ops, [g1, g2, g3]);
      f(g1) + ConcatMap([g2, g3], f);
      { assert [g2, g3][1..] == [g3]; }
      f(g1) + (f(g2) + ConcatMap([g3], f));
      { assert [g3][1..] == []; }
      f(g1) + (f(g2) + (f(g3) + ConcatMap([], f)));
    }
  }

  /** A leaf is in the flattening exactly when some gene lists it. */
  lemma FlattenMembership<T, G>(ops: GeneOps<T, G>, genes: seq<G>, leaf: T)
    ensures leaf in Flatten(ops, genes) <==> exists i :: 0 <= i < |genes| && leaf in ops.flatten(genes[i])
  {
    ConcatMapMembership(genes, ops.flatten, leaf);
  }

  /** When every gene flattens to one leaf, there are as many leaves as genes
      and the i-th leaf is the i-th gene's. */
  lemma {:induction false} FlattenSingleLeaves<T, G>(ops: GeneOps<T, G>, genes: seq<G>)
    requires forall i :: 0 <= i < |genes| ==> |ops.flatten(genes[i])| == 1
    ensures |Flatten(ops, genes)| == Size(genes)
    ensures forall i :: 0 <= i < |genes| ==> Flatten(ops, genes)[i] == ops.flatten(genes[i])[0]
  {
    if genes != [] {
      FlattenSingleLeaves(ops, genes[1..]);
      var rest := Flatten(ops, genes[1..]);
      assert Flatten(ops, genes) == ops.flatten(genes[0]) + rest;
      forall i | 0 <= i < |genes|
        ensures Flatten(ops, genes)[i] == ops.flatten(genes[i])[0]
      {
        if i > 0 {
          assert genes[1..][i - 1] == genes[i];
        }
      }
    }
  }

  /** A chromosome of `SimpleGene`s flattens to the genes' values, in order. */
  lemma SimpleChromosomeFlatten(genes: seq<SimpleGene>)
    ensures |Flatten(SimpleGeneOps(), genes)| == Size(genes)
    ensures forall i :: 0 <= i < |genes| ==> Flatten(SimpleGeneOps(), genes)[i] == genes[i].value
  {
    FlattenSingleLeaves(SimpleGeneOps(), genes);
  }

  /** Validity of `a ++ b` is validity of both parts. */
  lemma IsValidAppend<T, G>(ops: GeneOps<T, G>, a: seq<G>, b: seq<G>)
    ensures IsValid(ops, a + b) <==> IsValid(ops, a) && IsValid(ops, b)
  {
    if IsValid(ops, a) && IsValid(ops, b) {
      forall i | 0 <= i < |a + b| ensures ops.verify((a + b)[i]) {
        if i >= |a| {
          assert (a + b)[i] == b[i - |a|];
        }
      }
    }
    if IsValid(ops, a + b) {
      forall i | 0 <= i < |a| ensures ops.verify(a[i]) {
        assert (a + b)[i] == a[i];
      }
      forall i | 0 <= i < |b| ensures ops.verify(b[i]) {
        assert (a + b)[|a| + i] == b[i];
      }
    }
  }

  /** The same gene operations with `verify` left at its default. */
  function WithDefaultVerify<T, G>(ops: GeneOps<T, G>): GeneOps<T, G>
  {
    ops.(verify := (g: G) => DefaultVerify(g))
  }

  /** A chromosome whose gene type keeps the default `verify` is always
      valid, whatever its genes. */
  lemma {:induction false} DefaultVerifiedGenesAreValid<T, G>(ops: GeneOps<T, G>, genes: seq<G>)
    ensures IsValid(WithDefaultVerify(ops), genes)
  {
    if genes != [] {
      DefaultVerifiedGenesAreValid(ops, genes[1..]);
    }
  }

  /** One invalid gene makes the whole chromosome invalid. */
  lemma OneInvalidGeneInvalidates<T, G>(ops: GeneOps<T, G>, genes: seq<G>, i: nat)
    requires i < |genes| && !ops.verify(genes[i])
    ensures !IsValid(ops, genes)
  {
  }

  /** Folding a chromosome in the representation role reduces its leaves
      gene after gene: the fold of `a ++ b` continues from the fold of `a`. */
  lemma FoldAppend<T, G, B>(ops: GeneOps<T, G>, a: seq<G>, b: seq<G>, initial: B, combine: (B, T) -> B)
    ensures Fold(AsRepresentation(ops), a + b, initial, combine)
         == Fold(AsRepresentation(ops), b, Fold(AsRepresentation(ops), a, initial, combine), combine)
  {
    FlattenAppend(ops, a, b);
    FoldLeftAppend(Flatten(ops, a), Flatten(ops, b), initial, combine);
  }
}
