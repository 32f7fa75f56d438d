/**
 * The expansion of cross-references (src/Analyzer.ts, dereferenceItem): an
 * item named "[LTID]id" stands for the items of loot table id, an item named
 * "[LBID]name" for the items of loot bucket name. Quantities and
 * probabilities are multiplied down the chain of references.
 */
module Dereference {
  import opened LootModel
  import opened JsText
  import opened Probabilities

  const TableReferenceTag := "[LTID]"
  const BucketReferenceTag := "[LBID]"
  const BucketPlaceholderPrefix := "Pick from loot bucket: "

  /**
   * The index of a list by key; where several entries share a key the last
   * one is kept.
   */
  function IndexBy<T>(xs: seq<T>, key: T -> string): (m: map<string, T>)
    ensures forall id :: id in m ==> m[id] in xs && key(m[id]) == id
    ensures forall k :: 0 <= k < |xs| ==> key(xs[k]) in m
  {
    if xs == [] then map[]
    else
      var last := xs[|xs| - 1];
      var m := IndexBy(xs[..|xs| - 1], key);
      assert forall k :: 0 <= k < |xs| - 1 ==> xs[..|xs| - 1][k] == xs[k];
      m[key(last) := last]
  }

  /** The entry a key is indexed with is the last entry with that key. */
  lemma {:induction false} IndexByLastWins<T>(xs: seq<T>, key: T -> string, k: nat)
    requires k < |xs|
    requires forall j :: k < j < |xs| ==> key(xs[j]) != key(xs[k])
    ensures IndexBy(xs, key)[key(xs[k])] == xs[k]
  {
    if k < |xs| - 1 {
      var init := xs[..|xs| - 1];
      IndexByLastWins(init, key, k);
    }
  }

  function TableId(t: LootTable): string { t.LootTableID }

  function BucketName(b: LootBucket): string { b.Name }

  /** The two lookup tables: loot tables by id and loot buckets by name. */
  datatype Lookups = Lookups(tables: map<string, LootTable>, buckets: map<string, LootBucket>)

  function LookupsOf(data: Loot): Lookups {
    Lookups(IndexBy(data.lootTables, TableId), IndexBy(data.lootBuckets, BucketName))
  }

  /** The table a name refers to, when it is "[LTID]" followed by a known id. */
  predicate IsTableReference(lk: Lookups, name: string) {
    StartsWith(name, TableReferenceTag) && name[|TableReferenceTag|..] in lk.tables
  }

  /** The bucket a name refers to, when it is "[LBID]" followed by a known name (and not a table reference). */
  predicate IsBucketReference(lk: Lookups, name: string) {
    !StartsWith(name, TableReferenceTag)
    && StartsWith(name, BucketReferenceTag) && name[|BucketReferenceTag|..] in lk.buckets
  }

  /** Whether a bucket is expanded into its items rather than shown as one placeholder. */
  predicate Expands(threshold: Option<int>, bucket: LootBucket) {
    threshold.Some? && threshold.value >= |bucket.Items|
  }

  /** The probability an item has in its table, scaled by the probability of reaching the table. */
  function ItemProbability(table: LootTable, item: LootTableItem, baseProbability: real): real {
    baseProbability * CalculateItemProbability(table.MaxRoll, item.Probability)
  }

  /** A resolved item that takes gear score and perks from the table item. */
  function LeafOf(item: LootTableItem, name: string, probability: real, quantity: NumberRange, conditions: Conditions): AnalyzedLootItem {
    AnalyzedLootItem(name, item.GearScore, quantity, probability, item.PerkBucketOverrides, item.PerkOverrides, conditions)
  }

  /**
   * The items of an expanded bucket: each keeps the reference's probability
   * when the bucket is MatchOne and gets an equal share of it otherwise; its
   * quantity is the reference's times its own.
   */
  function BucketLeaves(bucket: LootBucket, item: LootTableItem, itemProbability: real, itemQuantity: NumberRange): (leaves: seq<AnalyzedLootItem>)
    ensures |leaves| == |bucket.Items|
  {
    seq(|bucket.Items|, k requires 0 <= k < |bucket.Items| =>
      var b := bucket.Items[k];
      LeafOf(item, b.Name,
        if bucket.MatchOne then itemProbability else itemProbability / (|bucket.Items| as real),
        MultiplyRange(itemQuantity, ByRange(b.Quantity)),
        b.Conditions))
  }

  /**
   * The resolved items one table item stands for. `fuel` bounds the depth of
   * table references followed: a table reference met with no fuel left
   * contributes nothing.
   */
  function Dereferenced(lk: Lookups, threshold: Option<int>, item: LootTableItem, table: LootTable,
                        baseQuantity: Multiplier, baseProbability: real, fuel: nat): seq<AnalyzedLootItem>
    decreases fuel, 0, 0
  {
    var itemProbability := ItemProbability(table, item, baseProbability);
    var itemQuantity := MultiplyRange(item.Quantity, baseQuantity);
    if IsTableReference(lk, item.Name) then
      if fuel == 0 then []
      else
        var referenced := lk.tables[item.Name[|TableReferenceTag|..]];
        DereferenceAll(lk, threshold, referenced.Items, referenced, ByRange(itemQuantity), itemProbability, fuel - 1)
    else if IsBucketReference(lk, item.Name) then
      var bucket := lk.buckets[item.Name[|BucketReferenceTag|..]];
      if Expands(threshold, bucket) then BucketLeaves(bucket, item, itemProbability, itemQuantity)
      else [LeafOf(item, BucketPlaceholderPrefix + bucket.Name, itemProbability, itemQuantity, item.Conditions)]
    else
      [LeafOf(item, item.Name, itemProbability, item.Quantity, item.Conditions)]
  }

  /** The resolved items of a list of table items, in order. */
  function DereferenceAll(lk: Lookups, threshold: Option<int>, items: seq<LootTableItem>, table: LootTable,
                          baseQuantity: Multiplier, baseProbability: real, fuel: nat): seq<AnalyzedLootItem>
    decreases fuel, 1, |items|
  {
    if items == [] then []
    else
      DereferenceAll(lk, threshold, items[..|items| - 1], table, baseQuantity, baseProbability, fuel)
      + Dereferenced(lk, threshold, items[|items| - 1], table, baseQuantity, baseProbability, fuel)
  }

  /** An item that is no known reference resolves to one item: itself, with its own quantity. */
  lemma LiteralItemIsOneLeaf(lk: Lookups, threshold: Option<int>, item: LootTableItem, table: LootTable,
                             baseQuantity: Multiplier, baseProbability: real, fuel: nat)
    requires !IsTableReference(lk, item.Name) && !IsBucketReference(lk, item.Name)
    ensures var leaves := Dereferenced(lk, threshold, item, table, baseQuantity, baseProbability, fuel);
      |leaves| == 1
      && leaves[0].Name == item.Name
      && leaves[0].Quantity == item.Quantity
      && leaves[0].Probability == baseProbability * CalculateItemProbability(table.MaxRoll, item.Probability)
      && leaves[0].Conditions == item.Conditions
      && leaves[0].GearScore == item.GearScore
  {
  }

  /**
   * A known table reference resolves to the items of the referenced table,
   * reached with the reference's quantity and probability as their base.
   */
  lemma TableReferenceExpands(lk: Lookups, threshold: Option<int>, item: LootTableItem, table: LootTable,
                              baseQuantity: Multiplier, baseProbability: real, fuel: nat)
    requires IsTableReference(lk, item.Name) && fuel > 0
    ensures var referenced := lk.tables[item.Name[|TableReferenceTag|..]];
      Dereferenced(lk, threshold, item, table, baseQuantity, baseProbability, fuel)
      == DereferenceAll(lk, threshold, referenced.Items, referenced,
           ByRange(MultiplyRange(item.Quantity, baseQuantity)), ItemProbability(table, item, baseProbability), fuel - 1)
  {
  }

  /**
   * An expanded bucket gives one item per bucket item, in bucket order, with
   * the bucket item's name, conditions and multiplied quantity, and with
   * the reference's probability p, or an equal share of it unless MatchOne.
   */
  lemma BucketLeavesShare(bucket: LootBucket, item: LootTableItem, p: real, itemQuantity: NumberRange)
    ensures var leaves := BucketLeaves(bucket, item, p, itemQuantity);
      forall k :: 0 <= k < |leaves| ==>
        leaves[k].Name == bucket.Items[k].Name
        && leaves[k].Conditions == bucket.Items[k].Conditions
        && leaves[k].Quantity == MultiplyRange(itemQuantity, ByRange(bucket.Items[k].Quantity))
        && leaves[k].Probability * (if bucket.MatchOne then 1.0 else |bucket.Items| as real) == p
  {
    var leaves := BucketLeaves(bucket, item, p, itemQuantity);
    forall k | 0 <= k < |leaves|
      ensures leaves[k].Probability * (if bucket.MatchOne then 1.0 else |bucket.Items| as real) == p
    {
      if !bucket.MatchOne {
        DivTimes(p, |bucket.Items| as real);
      }
    }
  }

  /** An expanded bucket reference resolves to the bucket's items, reached with the reference's probability and quantity. */
  lemma BucketReferenceExpands(lk: Lookups, threshold: Option<int>, item: LootTableItem, table: LootTable,
                               baseQuantity: Multiplier, baseProbability: real, fuel: nat)
    requires IsBucketReference(lk, item.Name)
    requires Expands(threshold, lk.buckets[item.Name[|BucketReferenceTag|..]])
    ensures Dereferenced(lk, threshold, item, table, baseQuantity, baseProbability, fuel)
      == BucketLeaves(lk.buckets[item.Name[|BucketReferenceTag|..]], item,
           ItemProbability(table, item, baseProbability), MultiplyRange(item.Quantity, baseQuantity))
  {
  }

  /** A bucket reference that is not expanded resolves to one placeholder with the reference's quantity and conditions. */
  lemma BucketReferencePlaceholder(lk: Lookups, threshold: Option<int>, item: LootTableItem, table: LootTable,
                                   baseQuantity: Multiplier, baseProbability: real, fuel: nat)
    requires IsBucketReference(lk, item.Name)
    requires !Expands(threshold, lk.buckets[item.Name[|BucketReferenceTag|..]])
    ensures var bucket := lk.buckets[item.Name[|BucketReferenceTag|..]];
      Dereferenced(lk, threshold, item, table, baseQuantity, baseProbability, fuel)
      == [AnalyzedLootItem(BucketPlaceholderPrefix + bucket.Name, item.GearScore, MultiplyRange(item.Quantity, baseQuantity),
            ItemProbability(table, item, baseProbability), item.PerkBucketOverrides, item.PerkOverrides, item.Conditions)]
  {
  }

  /** A table without references resolves to one item per table item, in order. */
  lemma {:induction false} PlainItemsOneLeafEach(lk: Lookups, threshold: Option<int>, items: seq<LootTableItem>, table: LootTable,
                                                 baseQuantity: Multiplier, baseProbability: real, fuel: nat)
    requires forall k :: 0 <= k < |items| ==> !IsTableReference(lk, items[k].Name) && !IsBucketReference(lk, items[k].Name)
    ensures var leaves := DereferenceAll(lk, threshold, items, table, baseQuantity, baseProbability, fuel);
      |leaves| == |items|
      && forall k :: 0 <= k < |items| ==>
           leaves[k].Name == items[k].Name && leaves[k].Quantity == items[k].Quantity
           && leaves[k].Probability == ItemProbability(table, items[k], baseProbability)
  {
    if items != [] {
      var init := items[..|items| - 1];
      PlainItemsOneLeafEach(lk, threshold, init, table, baseQuantity, baseProbability, fuel);
      LiteralItemIsOneLeaf(lk, threshold, items[|items| - 1], table, baseQuantity, baseProbability, fuel);
    }
  }

  /** Every roll threshold of every known table is non-negative. */
  ghost predicate RollsNonNegative(items: seq<LootTableItem>) {
    forall k :: 0 <= k < |items| ==> items[k].Probability >= 0
  }

  ghost predicate LookupsRollsNonNegative(lk: Lookups) {
    forall id :: id in lk.tables ==> RollsNonNegative(lk.tables[id].Items)
  }

  lemma ProductInUnitRange(a: real, b: real)
    requires 0.0 <= a <= 1.0 && 0.0 <= b <= 1.0
    ensures 0.0 <= a * b <= 1.0
  {
    assert 0.0 <= a * b;
    assert a * b <= a;
  }

  lemma ConcatInUnitRange(a: seq<AnalyzedLootItem>, b: seq<AnalyzedLootItem>)
    requires InUnitRange(a) && InUnitRange(b)
    ensures InUnitRange(a + b)
  {
  }

  /**
   * With non-negative roll thresholds everywhere and a base probability in
   * [0, 1], every resolved item has a probability in [0, 1].
   */
  lemma {:induction false} DereferencedInUnitRange(lk: Lookups, threshold: Option<int>, item: LootTableItem, table: LootTable,
                                                   baseQuantity: Multiplier, baseProbability: real, fuel: nat)
    requires LookupsRollsNonNegative(lk) && item.Probability >= 0 && 0.0 <= baseProbability <= 1.0
    ensures InUnitRange(Dereferenced(lk, threshold, item, table, baseQuantity, baseProbability, fuel))
    decreases fuel, 0, 0
  {
    var p := ItemProbability(table, item, baseProbability);
    ProductInUnitRange(baseProbability, CalculateItemProbability(table.MaxRoll, item.Probability));
    var itemQuantity := MultiplyRange(item.Quantity, baseQuantity);
    if IsTableReference(lk, item.Name) {
      if fuel > 0 {
        var referenced := lk.tables[item.Name[|TableReferenceTag|..]];
        DereferenceAllInUnitRange(lk, threshold, referenced.Items, referenced, ByRange(itemQuantity), p, fuel - 1);
      }
    } else if IsBucketReference(lk, item.Name) {
      var bucket := lk.buckets[item.Name[|BucketReferenceTag|..]];
      if Expands(threshold, bucket) {
        var leaves := BucketLeaves(bucket, item, p, itemQuantity);
        forall k | 0 <= k < |leaves|
          ensures 0.0 <= leaves[k].Probability <= 1.0
        {
          if !bucket.MatchOne {
            DivByAtLeastOne(p, |bucket.Items| as real);
          }
        }
      }
    }
  }

  lemma {:induction false} DereferenceAllInUnitRange(lk: Lookups, threshold: Option<int>, items: seq<LootTableItem>, table: LootTable,
                                                     baseQuantity: Multiplier, baseProbability: real, fuel: nat)
    requires LookupsRollsNonNegative(lk) && RollsNonNegative(items) && 0.0 <= baseProbability <= 1.0
    ensures InUnitRange(DereferenceAll(lk, threshold, items, table, baseQuantity, baseProbability, fuel))
    decreases fuel, 1, |items|
  {
    if items != [] {
      var init := items[..|items| - 1];
      assert RollsNonNegative(init) by {
        assert forall k :: 0 <= k < |init| ==> init[k] == items[k];
      }
      DereferenceAllInUnitRange(lk, threshold, init, table, baseQuantity, baseProbability, fuel);
      DereferencedInUnitRange(lk, threshold, items[|items| - 1], table, baseQuantity, baseProbability, fuel);
      ConcatInUnitRange(
        DereferenceAll(lk, threshold, init, table, baseQuantity, baseProbability, fuel),
        Dereferenced(lk, threshold, items[|items| - 1], table, baseQuantity, baseProbability, fuel));
    }
  }

  /** The sequence of probabilities of a list of resolved items. */
  function ProbabilitiesOf(leaves: seq<AnalyzedLootItem>): (ps: seq<real>)
    ensures |ps| == |leaves|
  {
    seq(|leaves|, k requires 0 <= k < |leaves| => leaves[k].Probability)
  }

  /** Every entry of ps times c. */
  function Scaled(ps: seq<real>, c: real): (r: seq<real>)
    ensures |r| == |ps|
  {
    seq(|ps|, k requires 0 <= k < |ps| => c * ps[k])
  }

  lemma ScaledConcat(a: seq<AnalyzedLootItem>, b: seq<AnalyzedLootItem>, c: real)
    ensures ProbabilitiesOf(a + b) == ProbabilitiesOf(a) + ProbabilitiesOf(b)
    ensures Scaled(ProbabilitiesOf(a) + ProbabilitiesOf(b), c) == Scaled(ProbabilitiesOf(a), c) + Scaled(ProbabilitiesOf(b), c)
  {
    var x, y := ProbabilitiesOf(a), ProbabilitiesOf(b);
    assert forall k :: 0 <= k < |x + y| ==> Scaled(x + y, c)[k] == (Scaled(x, c) + Scaled(y, c))[k];
  }

  lemma ScaleProduct(c: real, b: real, q: real)
    ensures (c * b) * q == c * (b * q)
  {
  }

  lemma ScaleQuotient(c: real, p: real, n: real)
    requires n > 0.0
    ensures (c * p) / n == c * (p / n)
  {
  }

  lemma BucketLeavesScale(bucket: LootBucket, item: LootTableItem, p: real, c: real, itemQuantity: NumberRange)
    ensures ProbabilitiesOf(BucketLeaves(bucket, item, c * p, itemQuantity))
      == Scaled(ProbabilitiesOf(BucketLeaves(bucket, item, p, itemQuantity)), c)
  {
    var scaled := ProbabilitiesOf(BucketLeaves(bucket, item, c * p, itemQuantity));
    var plain := Scaled(ProbabilitiesOf(BucketLeaves(bucket, item, p, itemQuantity)), c);
    forall k | 0 <= k < |bucket.Items|
      ensures scaled[k] == plain[k]
    {
      BucketLeafScales(bucket, item, p, c, itemQuantity, k);
    }
  }

  lemma BucketLeafScales(bucket: LootBucket, item: LootTableItem, p: real, c: real, itemQuantity: NumberRange, k: nat)
    requires k < |bucket.Items|
    ensures BucketLeaves(bucket, item, c * p, itemQuantity)[k].Probability
      == c * BucketLeaves(bucket, item, p, itemQuantity)[k].Probability
  {
    if !bucket.MatchOne {
      ScaleQuotient(c, p, |bucket.Items| as real);
    }
  }

  /**
   * Probabilities compose multiplicatively down the chain: scaling the
   * base probability by c scales every resolved probability by c.
   */
  lemma {:induction false} DereferencedScales(lk: Lookups, threshold: Option<int>, item: LootTableItem, table: LootTable,
                                              baseQuantity: Multiplier, baseProbability: real, c: real, fuel: nat)
    ensures ProbabilitiesOf(Dereferenced(lk, threshold, item, table, baseQuantity, c * baseProbability, fuel))
      == Scaled(ProbabilitiesOf(Dereferenced(lk, threshold, item, table, baseQuantity, baseProbability, fuel)), c)
    decreases fuel, 0, 0
  {
    var q := CalculateItemProbability(table.MaxRoll, item.Probability);
    var p := ItemProbability(table, item, baseProbability);
    ScaleProduct(c, baseProbability, q);
    assert ItemProbability(table, item, c * baseProbability) == c * p;
    var itemQuantity := MultiplyRange(item.Quantity, baseQuantity);
    if IsTableReference(lk, item.Name) {
      if fuel > 0 {
        var referenced := lk.tables[item.Name[|TableReferenceTag|..]];
        DereferenceAllScales(lk, threshold, referenced.Items, referenced, ByRange(itemQuantity), p, c, fuel - 1);
      }
    } else if IsBucketReference(lk, item.Name) {
      var bucket := lk.buckets[item.Name[|BucketReferenceTag|..]];
      if Expands(threshold, bucket) {
        BucketLeavesScale(bucket, item, p, c, itemQuantity);
        assert Dereferenced(lk, threshold, item, table, baseQuantity, c * baseProbability, fuel)
          == BucketLeaves(bucket, item, c * p, itemQuantity);
        assert Dereferenced(lk, threshold, item, table, baseQuantity, baseProbability, fuel)
          == BucketLeaves(bucket, item, p, itemQuantity);
      } else {
        assert ProbabilitiesOf(Dereferenced(lk, threshold, item, table, baseQuantity, c * baseProbability, fuel)) == [c * p];
        assert ProbabilitiesOf(Dereferenced(lk, threshold, item, table, baseQuantity, baseProbability, fuel)) == [p];
        ScaledSingleton(p, c);
      }
    } else {
      assert ProbabilitiesOf(Dereferenced(lk, threshold, item, table, baseQuantity, c * baseProbability, fuel)) == [c * p];
      assert ProbabilitiesOf(Dereferenced(lk, threshold, item, table, baseQuantity, baseProbability, fuel)) == [p];
      ScaledSingleton(p, c);
    }
  }

  lemma ScaledSingleton(p: real, c: real)
    ensures Scaled([p], c) == [c * p]
  {
    assert Scaled([p], c)[0] == c * p;
  }

  lemma {:induction false} DereferenceAllScales(lk: Lookups, threshold: Option<int>, items: seq<LootTableItem>, table: LootTable,
                                                baseQuantity: Multiplier, baseProbability: real, c: real, fuel: nat)
    ensures ProbabilitiesOf(DereferenceAll(lk, threshold, items, table, baseQuantity, c * baseProbability, fuel))
      == Scaled(ProbabilitiesOf(DereferenceAll(lk, threshold, items, table, baseQuantity, baseProbability, fuel)), c)
    decreases fuel, 1, |items|
  {
    if items != [] {
      var init := items[..|items| - 1];
      var last := items[|items| - 1];
      DereferenceAllScales(lk, threshold, init, table, baseQuantity, baseProbability, c, fuel);
      DereferencedScales(lk, threshold, last, table, baseQuantity, baseProbability, c, fuel);
      ScaledConcat(
        DereferenceAll(lk, threshold, init, table, baseQuantity, baseProbability, fuel),
        Dereferenced(lk, threshold, last, table, baseQuantity, baseProbability, fuel), c);
      ScaledConcat(
        DereferenceAll(lk, threshold, init, table, baseQuantity, c * baseProbability, fuel),
        Dereferenced(lk, threshold, last, table, baseQuantity, c * baseProbability, fuel), c);
    }
  }
}
