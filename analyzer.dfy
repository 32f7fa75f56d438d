/**
 * The analyzer (src/Analyzer.ts): it builds the lookup tables once, then
 * resolves every loot table into analysed items, filters them against a
 * probability context and renormalises single-choice tables.
 */
module LootAnalyzer {
  import opened LootModel
  import opened JsText
  import opened Probabilities
  import opened ContextFilter
  import opened Dereference

  /** The analysed form of one loot table. */
  function AnalyzedTable(lk: Lookups, threshold: Option<int>, table: LootTable, context: ProbabilityContext, fuel: nat): AnalyzedLootTable {
    var multiple := table.AndOr == Some(And);
    var resolved := DereferenceAll(lk, threshold, table.Items, table, Scalar(1), 1.0, fuel);
    AnalyzedLootTable(
      table.LootTableID, multiple, table.HighWaterMarkMultiplier, table.UseLevelGearScore,
      table.GearScoreBonus, table.LuckSafe,
      Renormalized(KeptItems(resolved, context), multiple))
  }

  /** The analysis of a data set: one analysed table per loot table, in order. */
  function Analysis(data: Loot, threshold: Option<int>, context: ProbabilityContext, fuel: nat): (tables: seq<AnalyzedLootTable>)
    ensures |tables| == |data.lootTables|
  {
    var lk := LookupsOf(data);
    seq(|data.lootTables|, k requires 0 <= k < |data.lootTables| => AnalyzedTable(lk, threshold, data.lootTables[k], context, fuel))
  }

  /** How deep table references are followed: one level per loot table. */
  function ReferenceDepth(data: Loot): nat {
    |data.lootTables|
  }

  class Analyzer {
    /** The data tables to analyse. */
    const dataTables: Loot
    /** Buckets with more items than this are not expanded; None expands none. */
    const resolveLootBucketThreshold: Option<int>
    /** Loot table id to loot table, once built. */
    var lootTables: Option<map<string, LootTable>>
    /** Loot bucket name to loot bucket, once built. */
    var lootBuckets: Option<map<string, LootBucket>>

    /** A lookup table, once built, indexes the data tables with the last entry per key winning. */
    ghost predicate Valid()
      reads this
    {
      (lootTables.Some? ==> lootTables.value == IndexBy(dataTables.lootTables, TableId))
      && (lootBuckets.Some? ==> lootBuckets.value == IndexBy(dataTables.lootBuckets, BucketName))
    }

    ghost predicate Built()
      reads this
    {
      lootTables.Some? && lootBuckets.Some?
    }

    /** The lookup tables as a value, once built. */
    function CurrentLookups(): Lookups
      reads this
      requires Built()
    {
      Lookups(lootTables.value, lootBuckets.value)
    }

    constructor(dataTables: Loot, resolveLootBucketThreshold: Option<int>)
      ensures this.dataTables == dataTables && this.resolveLootBucketThreshold == resolveLootBucketThreshold
      ensures lootTables.None? && lootBuckets.None?
      ensures Valid()
    {
      this.dataTables := dataTables;
      this.resolveLootBucketThreshold := resolveLootBucketThreshold;
      lootTables := None;
      lootBuckets := None;
    }

    /** Analyses the data tables; a missing context is the empty one. */
    method Analyze(context: Option<ProbabilityContext>) returns (tables: seq<AnalyzedLootTable>)
      requires Valid()
      modifies this
      ensures Valid() && Built()
      ensures tables == Analysis(dataTables, resolveLootBucketThreshold, context.GetOr(EmptyContext), ReferenceDepth(dataTables))
    {
      BuildLookupTables();
      tables := AnalyzeLootTables(context.GetOr(EmptyContext), ReferenceDepth(dataTables));
    }

    /** Builds each lookup table unless it has been built before. */
    method BuildLookupTables()
      requires Valid()
      modifies this
      ensures Valid() && Built()
      ensures old(lootTables).Some? ==> lootTables == old(lootTables)
      ensures old(lootBuckets).Some? ==> lootBuckets == old(lootBuckets)
    {
      if lootTables.None? {
        var index: map<string, LootTable> := map[];
        var source := dataTables.lootTables;
        for i := 0 to |source|
          invariant index == IndexBy(source[..i], TableId)
        {
          assert source[..i + 1][..i] == source[..i];
          index := index[source[i].LootTableID := source[i]];
        }
        assert source[..|source|] == source;
        lootTables := Some(index);
      }
      if lootBuckets.None? {
        var index: map<string, LootBucket> := map[];
        var source := dataTables.lootBuckets;
        for i := 0 to |source|
          invariant index == IndexBy(source[..i], BucketName)
        {
          assert source[..i + 1][..i] == source[..i];
          index := index[source[i].Name := source[i]];
        }
        assert source[..|source|] == source;
        lootBuckets := Some(index);
      }
    }

    /** Analyses every loot table, in order. */
    method AnalyzeLootTables(context: ProbabilityContext, fuel: nat) returns (analyzedTables: seq<AnalyzedLootTable>)
      requires Valid() && Built()
      ensures analyzedTables == Analysis(dataTables, resolveLootBucketThreshold, context, fuel)
    {
      ghost var expected := Analysis(dataTables, resolveLootBucketThreshold, context, fuel);
      assert CurrentLookups() == LookupsOf(dataTables);
      var source := dataTables.lootTables;
      analyzedTables := [];
      for t := 0 to |source|
        invariant analyzedTables == expected[..t]
      {
        var table := AnalyzeLootTable(source[t], context, fuel);
        assert expected[..t + 1] == expected[..t] + [table];
        analyzedTables := analyzedTables + [table];
      }
      assert expected[..|source|] == expected;
    }

    /** One analysed table: its items resolved, filtered and, for a single-choice table, renormalised. */
    method AnalyzeLootTable(lootTable: LootTable, context: ProbabilityContext, fuel: nat) returns (table: AnalyzedLootTable)
      requires Built()
      ensures table == AnalyzedTable(CurrentLookups(), resolveLootBucketThreshold, lootTable, context, fuel)
    {
      var multiple := lootTable.AndOr == Some(And);
      var resolved := DereferenceItems(lootTable, fuel);
      var kept := FilterItems(resolved, context);
      var items := new AnalyzedLootItem[|kept|](k requires 0 <= k < |kept| => kept[k]);
      assert items[..] == kept;
      AdaptMultiProbabilities(items, multiple);
      table := AnalyzedLootTable(
        lootTable.LootTableID, multiple, lootTable.HighWaterMarkMultiplier, lootTable.UseLevelGearScore,
        lootTable.GearScoreBonus, lootTable.LuckSafe, items[..]);
    }

    /** The resolved items of a table, each table item dereferenced in turn with base quantity and probability 1. */
    method DereferenceItems(lootTable: LootTable, fuel: nat) returns (resolved: seq<AnalyzedLootItem>)
      requires Built()
      ensures resolved == DereferenceAll(CurrentLookups(), resolveLootBucketThreshold, lootTable.Items, lootTable, Scalar(1), 1.0, fuel)
    {
      resolved := [];
      for i := 0 to |lootTable.Items|
        invariant resolved == DereferenceAll(CurrentLookups(), resolveLootBucketThreshold, lootTable.Items[..i], lootTable, Scalar(1), 1.0, fuel)
      {
        assert lootTable.Items[..i + 1][..i] == lootTable.Items[..i];
        resolved := DereferenceItem(resolved, lootTable.Items[i], lootTable, Scalar(1), 1.0, fuel);
      }
      assert lootTable.Items[..|lootTable.Items|] == lootTable.Items;
    }

    /** The items the context filter keeps, in order. */
    method FilterItems(items: seq<AnalyzedLootItem>, context: ProbabilityContext) returns (kept: seq<AnalyzedLootItem>)
      ensures kept == KeptItems(items, context)
    {
      kept := [];
      for i := 0 to |items|
        invariant kept == KeptItems(items[..i], context)
      {
        assert items[..i + 1][..i] == items[..i];
        var keep := FilterByContext(items[i], context);
        if keep {
          kept := kept + [items[i]];
        }
      }
      assert items[..|items|] == items;
    }

    /**
     * Appends the resolved items of one table item to `items`: a literal
     * item or an unknown reference gives one item, a known bucket reference
     * its expansion or a placeholder, and a known table reference the
     * resolved items of that table, each reached with this item's quantity
     * and probability.
     */
    method DereferenceItem(items: seq<AnalyzedLootItem>, item: LootTableItem, lootTable: LootTable,
                           baseQuantity: Multiplier, baseProbability: real, fuel: nat) returns (result: seq<AnalyzedLootItem>)
      requires Built()
      ensures result == items + Dereferenced(CurrentLookups(), resolveLootBucketThreshold, item, lootTable, baseQuantity, baseProbability, fuel)
      decreases fuel
    {
      ghost var lk := CurrentLookups();
      ghost var threshold := resolveLootBucketThreshold;
      var itemProbability := baseProbability * CalculateItemProbability(lootTable.MaxRoll, item.Probability);
      var itemQuantity := MultiplyRange(item.Quantity, baseQuantity);
      assert lk.tables == lootTables.value && lk.buckets == lootBuckets.value;
      assert itemProbability == ItemProbability(lootTable, item, baseProbability);
      var crossReferenceResolved := false;
      result := items;
      if StartsWith(item.Name, TableReferenceTag) {
        var id := item.Name[|TableReferenceTag|..];
        if id in lootTables.value {
          var referencedTable := lootTables.value[id];
          if fuel > 0 {
            for i := 0 to |referencedTable.Items|
              invariant result == items + DereferenceAll(lk, threshold, referencedTable.Items[..i],
                                                           referencedTable, ByRange(itemQuantity), itemProbability, fuel - 1)
            {
              assert referencedTable.Items[..i + 1][..i] == referencedTable.Items[..i];
              result := DereferenceItem(result, referencedTable.Items[i], referencedTable, ByRange(itemQuantity), itemProbability, fuel - 1);
            }
            assert referencedTable.Items[..|referencedTable.Items|] == referencedTable.Items;
            TableReferenceExpands(lk, threshold, item, lootTable, baseQuantity, baseProbability, fuel);
          } else {
            assert Dereferenced(lk, threshold, item, lootTable, baseQuantity, baseProbability, fuel) == [];
          }
          crossReferenceResolved := true;
        }
      } else if StartsWith(item.Name, BucketReferenceTag) {
        var name := item.Name[|BucketReferenceTag|..];
        if name in lootBuckets.value {
          var referencedBucket := lootBuckets.value[name];
          if resolveLootBucketThreshold.Some? && resolveLootBucketThreshold.value >= |referencedBucket.Items| {
            ghost var leaves := BucketLeaves(referencedBucket, item, itemProbability, itemQuantity);
            for i := 0 to |referencedBucket.Items|
              invariant result == items + leaves[..i]
            {
              var referencedItem := referencedBucket.Items[i];
              result := result + [AnalyzedLootItem(
                referencedItem.Name,
                item.GearScore,
                MultiplyRange(itemQuantity, ByRange(referencedItem.Quantity)),
                if referencedBucket.MatchOne then itemProbability else itemProbability / (|referencedBucket.Items| as real),
                item.PerkBucketOverrides,
                item.PerkOverrides,
                referencedItem.Conditions)];
              assert leaves[..i + 1] == leaves[..i] + [leaves[i]];
            }
            assert leaves[..|leaves|] == leaves;
            BucketReferenceExpands(lk, threshold, item, lootTable, baseQuantity, baseProbability, fuel);
          } else {
            result := result + [AnalyzedLootItem(
              BucketPlaceholderPrefix + referencedBucket.Name, item.GearScore, itemQuantity, itemProbability,
              item.PerkBucketOverrides, item.PerkOverrides, item.Conditions)];
            BucketReferencePlaceholder(lk, threshold, item, lootTable, baseQuantity, baseProbability, fuel);
          }
          crossReferenceResolved := true;
        }
      }
      if !crossReferenceResolved {
        result := result + [AnalyzedLootItem(
          item.Name, item.GearScore, item.Quantity, itemProbability,
          item.PerkBucketOverrides, item.PerkOverrides, item.Conditions)];
        assert Dereferenced(lk, threshold, item, lootTable, baseQuantity, baseProbability, fuel)
          == [LeafOf(item, item.Name, itemProbability, item.Quantity, item.Conditions)];
      }
    }
  }

  /**
   * Each analysed table carries the id and settings of its source table,
   * and Multiple holds exactly when the table is an AND table.
   */
  lemma AnalysisKeepsTableSettings(data: Loot, threshold: Option<int>, context: ProbabilityContext, fuel: nat)
    ensures var tables := Analysis(data, threshold, context, fuel);
      forall k :: 0 <= k < |tables| ==>
        var source := data.lootTables[k];
        tables[k].Id == source.LootTableID
        && (tables[k].Multiple <==> source.AndOr == Some(And))
        && tables[k].GearScoreBonus == source.GearScoreBonus
        && tables[k].HighWaterMarkMultiplier == source.HighWaterMarkMultiplier
        && tables[k].LuckSafe == source.LuckSafe
        && tables[k].UseLevelGearScore == source.UseLevelGearScore
  {
  }

  /** The index of a data set holds only tables of the data set. */
  lemma LookupsOfRollsNonNegative(data: Loot)
    requires forall k :: 0 <= k < |data.lootTables| ==> RollsNonNegative(data.lootTables[k].Items)
    ensures LookupsRollsNonNegative(LookupsOf(data))
  {
    var lk := LookupsOf(data);
    forall id | id in lk.tables
      ensures RollsNonNegative(lk.tables[id].Items)
    {
      var t := lk.tables[id];
      assert t in data.lootTables;
      var k :| 0 <= k < |data.lootTables| && data.lootTables[k] == t;
    }
  }

  lemma KeptItemsInUnitRange(items: seq<AnalyzedLootItem>, context: ProbabilityContext)
    requires InUnitRange(items)
    ensures InUnitRange(KeptItems(items, context))
  {
    var kept := KeptItems(items, context);
    forall k | 0 <= k < |kept|
      ensures 0.0 <= kept[k].Probability <= 1.0
    {
      var j :| 0 <= j < |items| && items[j] == kept[k];
    }
  }

  /**
   * When no roll threshold is negative, every analysed item has a
   * probability between 0 (impossible) and 1 (guaranteed).
   */
  lemma AnalyzedProbabilitiesInUnitRange(data: Loot, threshold: Option<int>, context: ProbabilityContext, fuel: nat)
    requires forall k :: 0 <= k < |data.lootTables| ==> RollsNonNegative(data.lootTables[k].Items)
    ensures var tables := Analysis(data, threshold, context, fuel);
      forall k :: 0 <= k < |tables| ==> InUnitRange(tables[k].Items)
  {
    var lk := LookupsOf(data);
    LookupsOfRollsNonNegative(data);
    forall k | 0 <= k < |data.lootTables|
      ensures InUnitRange(AnalyzedTable(lk, threshold, data.lootTables[k], context, fuel).Items)
    {
      var table := data.lootTables[k];
      var resolved := DereferenceAll(lk, threshold, table.Items, table, Scalar(1), 1.0, fuel);
      DereferenceAllInUnitRange(lk, threshold, table.Items, table, Scalar(1), 1.0, fuel);
      KeptItemsInUnitRange(resolved, context);
      RenormalizedInUnitRange(KeptItems(resolved, context), table.AndOr == Some(And));
    }
  }

  /**
   * In a single-choice table with some possible item, each kept item's
   * probability is divided by the number of possible items; an impossible
   * item stays impossible.
   */
  lemma SingleChoiceTablesRenormalized(data: Loot, threshold: Option<int>, context: ProbabilityContext, fuel: nat, t: nat, k: nat)
    requires t < |data.lootTables| && data.lootTables[t].AndOr != Some(And)
    requires var table := data.lootTables[t];
      var kept := KeptItems(DereferenceAll(LookupsOf(data), threshold, table.Items, table, Scalar(1), 1.0, fuel), context);
      k < |kept| && PossibleItemCount(kept) > 0
    ensures var table := data.lootTables[t];
      var kept := KeptItems(DereferenceAll(LookupsOf(data), threshold, table.Items, table, Scalar(1), 1.0, fuel), context);
      var analyzed := Analysis(data, threshold, context, fuel)[t];
      analyzed.Items[k].Probability == kept[k].Probability / PossibleItemCount(kept) as real
      && (kept[k].Probability == 0.0 ==> analyzed.Items[k].Probability == 0.0)
  {
    var table := data.lootTables[t];
    var kept := KeptItems(DereferenceAll(LookupsOf(data), threshold, table.Items, table, Scalar(1), 1.0, fuel), context);
    RenormalizedDivides(kept, k);
  }

  /** A table that allows several items keeps the probabilities of its kept items unchanged. */
  lemma MultipleTablesNotRenormalized(data: Loot, threshold: Option<int>, context: ProbabilityContext, fuel: nat, t: nat)
    requires t < |data.lootTables| && data.lootTables[t].AndOr == Some(And)
    ensures var table := data.lootTables[t];
      Analysis(data, threshold, context, fuel)[t].Items
      == KeptItems(DereferenceAll(LookupsOf(data), threshold, table.Items, table, Scalar(1), 1.0, fuel), context)
  {
  }

  /** Without a context nothing is filtered out: the analysis renormalises all resolved items. */
  lemma EmptyContextAnalysesAllItems(data: Loot, threshold: Option<int>, fuel: nat, t: nat)
    requires t < |data.lootTables|
    ensures var table := data.lootTables[t];
      Analysis(data, threshold, EmptyContext, fuel)[t].Items
      == Renormalized(DereferenceAll(LookupsOf(data), threshold, table.Items, table, Scalar(1), 1.0, fuel), table.AndOr == Some(And))
  {
    var table := data.lootTables[t];
    EmptyContextKeepsAll(DereferenceAll(LookupsOf(data), threshold, table.Items, table, Scalar(1), 1.0, fuel));
  }
}
