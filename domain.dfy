/** Domain services: the equality threshold of one execution context, with its
    default and its checked setter, and the order-sensitive combinatorial hash
    of a sequence of items. */
module Domain {
  import opened Numbers
  import opened Foldable

  const DEFAULT_EQUALITY_THRESHOLD: real := 0.0001

  /** Why `set_equality_threshold` refuses a value (the source panics). */
  datatype ThresholdError = Negative(value: real) | NotANumber

  datatype Outcome = Pass | Fail(error: ThresholdError)

  /** The equality-threshold cell of one execution context. */
  class ThresholdCell {
    var threshold: F64

    /** Whatever is stored is a number and not negative. */
    ghost predicate Valid()
      reads this
    {
      threshold.Num? && threshold.r >= 0.0
    }

    /** The cell starts at the default threshold. */
    constructor ()
      ensures Valid() && threshold == Num(DEFAULT_EQUALITY_THRESHOLD)
    {
      threshold := Num(DEFAULT_EQUALITY_THRESHOLD);
    }

    /** `get_equality_threshold`. */
    function GetEqualityThreshold(): (t: F64)
      reads this
      ensures Valid() ==> !IsNaN(t) && !FloatLess(t, Num(0.0))
    {
      threshold
    }

    /** `set_equality_threshold`: a negative value, then a NaN, is refused
        before anything is written; any other value is stored as given. */
    method SetEqualityThreshold(value: F64) returns (outcome: Outcome)
      requires Valid()
      modifies this
      ensures Valid()
      ensures FloatLess(value, Num(0.0)) ==> outcome == Fail(Negative(value.r)) && threshold == old(threshold)
      ensures IsNaN(value) ==> outcome == Fail(NotANumber) && threshold == old(threshold)
      ensures value.Num? && value.r >= 0.0 ==> outcome == Pass && threshold == value
    {
      if FloatLess(value, Num(0.0)) {
        return Fail(Negative(value.r));
      }
      if IsNaN(value) {
        return Fail(NotANumber);
      }
      threshold := value;
      outcome := Pass;
    }
  }

  /** A context reads the default before any write, reads back exactly what
      it set, and keeps its threshold when a negative value or NaN is refused. */
  method ThresholdScenario(v: real, w: real)
    requires v >= 0.0 && w < 0.0
  {
    var cell := new ThresholdCell();
    assert cell.GetEqualityThreshold() == Num(0.0001);
    var ok := cell.SetEqualityThreshold(Num(v));
    assert ok == Pass && cell.GetEqualityThreshold() == Num(v);
    var bad := cell.SetEqualityThreshold(Num(w));
    assert bad.Fail? && cell.GetEqualityThreshold() == Num(v);
    bad := cell.SetEqualityThreshold(NaN);
    assert bad == Fail(NotANumber) && cell.GetEqualityThreshold() == Num(v);
  }

  const PRIME: int := 31

  /** One step of the hash: `PRIME * result + element_hash` in `i32`. */
  function HashStep(result: I32, elementHash: I32): I32
  {
    Wrap(PRIME * result + elementHash)
  }

  /** `hash`: a left fold over the items, from 1, with `h` the hash of one item
      already truncated to `i32`. */
  function Hash<X>(items: seq<X>, h: X -> I32): I32
  {
    FoldLeft(items, 1 as I32, (result: I32, x: X) => HashStep(result, h(x)))
  }

  /** The hash of nothing is 1. */
  lemma HashEmpty<X>(h: X -> I32)
    ensures Hash([], h) == 1
  {
  }

  /** Appending an item multiplies the hash so far by the prime and adds the
      item's hash, wrapping in `i32`. */
  lemma HashSnoc<X>(items: seq<X>, x: X, h: X -> I32)
    ensures Hash(items + [x], h) == Wrap(31 * Hash(items, h) + h(x))
  {
    FoldLeftSnoc(items, x, 1 as I32, (result: I32, y: X) => HashStep(result, h(y)));
  }

  /** The hash of one item. */
  lemma HashSingleton<X>(x: X, h: X -> I32)
    ensures Hash([x], h) == Wrap(31 + h(x))
  {
    HashSnoc([], x, h);
    assert [] + [x] == [x];
  }

  /** The hash sees the items only through their hashes, in order. */
  lemma {:induction false} HashDependsOnlyOnItemHashes<X, Y>(xs: seq<X>, h1: X -> I32, ys: seq<Y>, h2: Y -> I32)
    requires |xs| == |ys|
    requires forall i :: 0 <= i < |xs| ==> h1(xs[i]) == h2(ys[i])
    ensures Hash(xs, h1) == Hash(ys, h2)
  {
    if xs != [] {
      var n := |xs| - 1;
      assert xs == xs[..n] + [xs[n]];
      assert ys == ys[..n] + [ys[n]];
      HashDependsOnlyOnItemHashes(xs[..n], h1, ys[..n], h2);
      HashSnoc(xs[..n], xs[n], h1);
      HashSnoc(ys[..n], ys[n], h2);
    }
  }

  /** Reordering items can change the hash. */
  lemma HashIsOrderSensitive()
    ensures Hash<I32>([0, 1], (x: I32) => x) != Hash<I32>([1, 0], (x: I32) => x)
  {
    HashSingleton(0 as I32, (x: I32) => x);
    HashSingleton(1 as I32, (x: I32) => x);
    HashSnoc([0 as I32], 1 as I32, (x: I32) => x);
    HashSnoc([1 as I32], 0 as I32, (x: I32) => x);
    assert [0 as I32] + [1 as I32] == [0, 1];
    assert [1 as I32] + [0 as I32] == [1, 0];
  }

  /** `hash` as the iteration runs it: the accumulator starts at 1 and takes
      one step per item. */
  method ComputeHash<X>(items: seq<X>, h: X -> I32) returns (result: I32)
    ensures result == Hash(items, h)
  {
    result := 1;
    var i := 0;
    while i < |items|
      invariant 0 <= i <= |items|
      invariant result == Hash(items[..i], h)
    {
      assert items[..i + 1] == items[..i] + [items[i]];
      HashSnoc(items[..i], items[i], h);
      result := HashStep(result, h(items[i]));
      i := i + 1;
    }
    assert items[..i] == items;
  }
}
