/**
 * Probability arithmetic of the analyzer (src/Analyzer.ts): roll thresholds
 * to probabilities, range multiplication and the renormalisation of
 * single-choice tables.
 */
module Probabilities {
  import opened LootModel

  /**
   * The probability of rolling at least `itemProbability` on a table whose
   * maximum roll is `tableMaxRoll`. A table without a positive maximum roll
   * gives exactly the items with threshold 0.
   */
  function CalculateItemProbability(tableMaxRoll: int, itemProbability: int): (p: real)
    ensures tableMaxRoll > 0 && itemProbability > tableMaxRoll ==> p == 0.0
    ensures tableMaxRoll > 0 && itemProbability <= tableMaxRoll ==>
      p == 1.0 - itemProbability as real / tableMaxRoll as real
    ensures tableMaxRoll <= 0 ==> (p == 1.0 <==> itemProbability == 0) && (p == 0.0 <==> itemProbability != 0)
    ensures itemProbability >= 0 ==> 0.0 <= p <= 1.0
  {
    if tableMaxRoll > 0 then
      if itemProbability > tableMaxRoll then 0.0
      else 1.0 - itemProbability as real / tableMaxRoll as real
    else
      if itemProbability == 0 then 1.0 else 0.0
  }

  /** On a table with a positive maximum roll a higher threshold is never likelier. */
  lemma ProbabilityNonIncreasing(tableMaxRoll: int, low: int, high: int)
    requires tableMaxRoll > 0 && low <= high
    ensures CalculateItemProbability(tableMaxRoll, high) <= CalculateItemProbability(tableMaxRoll, low)
  {
    var m := tableMaxRoll as real;
    if high <= tableMaxRoll {
      DivMonotone(low as real, high as real, m);
    } else if low <= tableMaxRoll {
      DivMonotone(low as real, m, m);
    }
  }

  lemma DivMonotone(a: real, b: real, m: real)
    requires m > 0.0 && a <= b
    ensures a / m <= b / m
  {
    var qa, qb := a / m, b / m;
    assert qa * m == a && qb * m == b;
  }

  lemma DivByAtLeastOne(p: real, c: real)
    requires p >= 0.0 && c >= 1.0
    ensures 0.0 <= p / c <= p
  {
    var q := p / c;
    assert q * c == p;
    assert p - q == q * (c - 1.0);
  }

  /** The multiplier of a quantity: the default base 1 is a number, recursion passes a range. */
  datatype Multiplier = Scalar(factor: int) | ByRange(range: NumberRange)

  predicate NonNegative(r: NumberRange) { 0 <= r.Low <= r.High }

  predicate NonNegativeFactor(m: Multiplier) {
    match m
    case Scalar(f) => 0 <= f
    case ByRange(r) => NonNegative(r)
  }

  predicate SingleFactor(m: Multiplier) {
    m.Scalar? || m.range.IsSingle()
  }

  /** Multiplies both ends of a range by a number, or pairwise by the ends of a range. */
  function MultiplyRange(baseRange: NumberRange, multiplier: Multiplier): (r: NumberRange)
    ensures NonNegative(baseRange) && NonNegativeFactor(multiplier) ==> NonNegative(r)
    ensures baseRange.IsSingle() && SingleFactor(multiplier) ==> r.IsSingle()
  {
    match multiplier
    case Scalar(f) =>
      MultiplyMonotone(baseRange.Low, baseRange.High, f, f);
      NumberRange(baseRange.Low * f, baseRange.High * f)
    case ByRange(m) =>
      MultiplyMonotone(baseRange.Low, baseRange.High, m.Low, m.High);
      NumberRange(baseRange.Low * m.Low, baseRange.High * m.High)
  }

  lemma MultiplyMonotone(a: int, b: int, c: int, d: int)
    ensures 0 <= a <= b && 0 <= c <= d ==> 0 <= a * c <= b * d
  {
    if 0 <= a <= b && 0 <= c <= d {
      assert a * c <= b * c;
      assert b * c <= b * d;
    }
  }

  /** Multiplying by the default base 1, as a number or as a range, changes nothing. */
  lemma MultiplyByOne(r: NumberRange)
    ensures MultiplyRange(r, Scalar(1)) == r
    ensures MultiplyRange(r, ByRange(NumberRange(1, 1))) == r
  {
  }

  /** Number of items whose probability is positive. */
  function PossibleItemCount(items: seq<AnalyzedLootItem>): (n: nat)
    ensures n <= |items|
  {
    if items == [] then 0
    else PossibleItemCount(items[..|items| - 1]) + (if items[|items| - 1].Probability > 0.0 then 1 else 0)
  }

  function ProbabilitySum(items: seq<AnalyzedLootItem>): real {
    if items == [] then 0.0
    else ProbabilitySum(items[..|items| - 1]) + items[|items| - 1].Probability
  }

  /** Every probability divided by `count`, nothing else changed. */
  function Divided(items: seq<AnalyzedLootItem>, count: nat): (r: seq<AnalyzedLootItem>)
    requires count > 0
    ensures |r| == |items|
  {
    seq(|items|, k requires 0 <= k < |items| => items[k].(Probability := items[k].Probability / count as real))
  }

  /**
   * The renormalisation of a table's resolved items: in a single-choice
   * table each probability is divided by the number of possible items. When
   * no item is possible the probabilities are left as they are.
   */
  function Renormalized(items: seq<AnalyzedLootItem>, multiple: bool): (r: seq<AnalyzedLootItem>)
    ensures |r| == |items|
  {
    var count := PossibleItemCount(items);
    if multiple || count == 0 then items else Divided(items, count)
  }

  /**
   * Divides every probability of a single-choice table by the number of
   * possible items, in place.
   */
  method AdaptMultiProbabilities(items: array<AnalyzedLootItem>, multiple: bool)
    modifies items
    ensures items[..] == Renormalized(old(items[..]), multiple)
  {
    if !multiple {
      var possibleItemCount := PossibleItemCount(items[..]);
      if possibleItemCount > 0 {
        ghost var before := items[..];
        for k := 0 to items.Length
          invariant forall j :: k <= j < items.Length ==> items[j] == before[j]
          invariant items[..k] == Divided(before[..k], possibleItemCount)
        {
          assert items[k] == before[k];
          items[k] := items[k].(Probability := items[k].Probability / possibleItemCount as real);
          assert before[..k + 1][..k] == before[..k];
        }
        assert before[..items.Length] == before;
      }
    }
  }

  /** Renormalisation keeps the items, their order and every field but the probability. */
  lemma RenormalizedShape(items: seq<AnalyzedLootItem>, multiple: bool)
    ensures |Renormalized(items, multiple)| == |items|
    ensures forall k :: 0 <= k < |items| ==>
      Renormalized(items, multiple)[k].(Probability := items[k].Probability) == items[k]
    ensures multiple ==> Renormalized(items, multiple) == items
  {
  }

  /** In a single-choice table with a possible item, p becomes p / count; zeros stay zero. */
  lemma RenormalizedDivides(items: seq<AnalyzedLootItem>, k: nat)
    requires k < |items| && PossibleItemCount(items) > 0
    ensures Renormalized(items, false)[k].Probability == items[k].Probability / PossibleItemCount(items) as real
    ensures items[k].Probability == 0.0 ==> Renormalized(items, false)[k].Probability == 0.0
  {
    var c := PossibleItemCount(items);
    var r := Divided(items, c);
    assert Renormalized(items, false) == r;
    assert r[k] == items[k].(Probability := items[k].Probability / c as real);
    ZeroDividedIsZero(items[k].Probability, c as real);
  }

  lemma ZeroDividedIsZero(p: real, c: real)
    requires c > 0.0
    ensures p == 0.0 ==> p / c == 0.0
  {
  }

  lemma {:induction false} DividedSum(items: seq<AnalyzedLootItem>, count: nat)
    requires count > 0
    ensures ProbabilitySum(Divided(items, count)) == ProbabilitySum(items) / count as real
  {
    if items != [] {
      var n := |items|;
      assert Divided(items, count)[..n - 1] == Divided(items[..n - 1], count);
      DividedSum(items[..n - 1], count);
      var c := count as real;
      assert ProbabilitySum(items[..n - 1]) / c + items[n - 1].Probability / c
          == (ProbabilitySum(items[..n - 1]) + items[n - 1].Probability) / c;
    }
  }

  /** Renormalising a single-choice table divides the total probability by the possible item count. */
  lemma RenormalizedSum(items: seq<AnalyzedLootItem>)
    requires PossibleItemCount(items) > 0
    ensures ProbabilitySum(Renormalized(items, false)) * PossibleItemCount(items) as real == ProbabilitySum(items)
  {
    var count := PossibleItemCount(items);
    DividedSum(items, count);
    assert Renormalized(items, false) == Divided(items, count);
    DivTimes(ProbabilitySum(items), count as real);
  }

  lemma DivTimes(p: real, c: real)
    requires c > 0.0
    ensures (p / c) * c == p
  {
  }

  predicate AllZeroOrOne(items: seq<AnalyzedLootItem>) {
    forall k :: 0 <= k < |items| ==> items[k].Probability == 0.0 || items[k].Probability == 1.0
  }

  lemma {:induction false} ZeroOrOneSum(items: seq<AnalyzedLootItem>)
    requires AllZeroOrOne(items)
    ensures ProbabilitySum(items) == PossibleItemCount(items) as real
  {
    if items != [] {
      assert AllZeroOrOne(items[..|items| - 1]);
      ZeroOrOneSum(items[..|items| - 1]);
    }
  }

  /**
   * A single-choice table whose items are each certain or impossible (a
   * table without a positive maximum roll) sums to exactly 1 after
   * renormalisation, provided one item is possible.
   */
  lemma SingleChoiceSumsToOne(items: seq<AnalyzedLootItem>)
    requires AllZeroOrOne(items) && PossibleItemCount(items) > 0
    ensures ProbabilitySum(Renormalized(items, false)) == 1.0
  {
    ZeroOrOneSum(items);
    RenormalizedSum(items);
    var c := PossibleItemCount(items) as real;
    CancelToOne(ProbabilitySum(Renormalized(items, false)), ProbabilitySum(items), c);
  }

  lemma CancelToOne(x: real, total: real, c: real)
    requires c > 0.0 && x * c == total && total == c
    ensures x == 1.0
  {
    CancelFactor(x, 1.0, c);
  }

  lemma CancelFactor(x: real, y: real, c: real)
    requires c > 0.0 && x * c == y * c
    ensures x == y
  {
    assert (x - y) * c == 0.0;
  }

  predicate InUnitRange(items: seq<AnalyzedLootItem>) {
    forall k :: 0 <= k < |items| ==> 0.0 <= items[k].Probability <= 1.0
  }

  /** Renormalisation keeps probabilities inside [0, 1]. */
  lemma RenormalizedInUnitRange(items: seq<AnalyzedLootItem>, multiple: bool)
    requires InUnitRange(items)
    ensures InUnitRange(Renormalized(items, multiple))
  {
    var count := PossibleItemCount(items);
    if !multiple && count > 0 {
      forall k | 0 <= k < |items|
        ensures 0.0 <= Renormalized(items, multiple)[k].Probability <= 1.0
      {
        DivByAtLeastOne(items[k].Probability, count as real);
      }
    }
  }

  /** A JavaScript number: finite, or NaN / an infinity. */
  datatype JsNumber = Finite(value: real) | NotFinite

  /** JavaScript division of a probability by an item count. */
  function DivideAsWritten(p: real, count: nat): JsNumber {
    if count == 0 then NotFinite else Finite(p / count as real)
  }

  /** The probabilities the source computes: it divides even when the count is 0. */
  function AdaptedAsWritten(items: seq<AnalyzedLootItem>, multiple: bool): (r: seq<JsNumber>)
    ensures |r| == |items|
  {
    var count := PossibleItemCount(items);
    seq(|items|, k requires 0 <= k < |items| =>
      if multiple then Finite(items[k].Probability) else DivideAsWritten(items[k].Probability, count))
  }

  /** A single-choice table whose only item is impossible gets an undefined probability as written. */
  lemma AsWrittenImpossibleItemIsNotFinite(item: AnalyzedLootItem)
    requires item.Probability == 0.0
    ensures AdaptedAsWritten([item], false) == [NotFinite]
  {
    assert PossibleItemCount([item]) == 0 by {
      assert [item][..0] == [];
    }
  }

  /**
   * The corrected renormalisation agrees with the source wherever the source
   * gives a finite number, and always gives a finite number.
   */
  lemma RenormalizedAgreesWithAsWritten(items: seq<AnalyzedLootItem>, multiple: bool)
    ensures forall k :: 0 <= k < |items| && AdaptedAsWritten(items, multiple)[k].Finite? ==>
      AdaptedAsWritten(items, multiple)[k].value == Renormalized(items, multiple)[k].Probability
    ensures forall k :: 0 <= k < |items| && AdaptedAsWritten(items, multiple)[k].NotFinite? ==>
      Renormalized(items, multiple)[k] == items[k]
  {
  }
}
