/**
 * The record shapes of the loot data (src/Loot.ts), in the form the analyzer
 * and the parser actually use them: table items carry Conditions, and a loot
 * bucket is a name, a MatchOne flag and a list of items.
 */
module LootModel {

  datatype Option<+T> = None | Some(value: T) {
    function GetOr(default: T): T {
      match this
      case Some(v) => v
      case None => default
    }
  }

  /** An inclusive number range; Low <= High is the intended invariant. */
  datatype NumberRange = NumberRange(Low: int, High: int) {
    predicate Valid() { Low <= High }
    /** A quantity range is expected to hold a single number. */
    predicate IsSingle() { Low == High }
  }

  datatype Fishing = Fishing(Salt: bool)

  datatype Levels = Levels(Character: Option<NumberRange>, Content: Option<NumberRange>, Enemy: Option<NumberRange>)

  const NoLevels := Levels(None, None, None)

  /** Eligibility conditions of an item. */
  datatype Conditions = Conditions(
    Elite: Option<bool>,
    Fishing: Option<Fishing>,
    GlobalMod: Option<bool>,
    Levels: Levels,
    Named: seq<string>)

  const NoConditions := Conditions(None, None, None, NoLevels, [])

  datatype AndOr = And | Or

  /**
   * One entry of a loot table. Probability is not a probability but a lower
   * limit on the roll needed to get the item.
   */
  datatype LootTableItem = LootTableItem(
    Name: string,
    GearScore: Option<NumberRange>,
    Quantity: NumberRange,
    Probability: int,
    PerkBucketOverrides: Option<string>,
    PerkOverrides: Option<string>,
    Conditions: Conditions)

  /** A loot table; MaxRoll is the maximum unmodified roll on the table. */
  datatype LootTable = LootTable(
    LootTableID: string,
    AndOr: Option<AndOr>,
    HighWaterMarkMultiplier: int,
    GearScoreBonus: int,
    MaxRoll: int,
    Items: seq<LootTableItem>,
    UseLevelGearScore: bool,
    LuckSafe: bool)

  datatype LootBucketItem = LootBucketItem(Name: string, Quantity: NumberRange, Conditions: Conditions)

  datatype LootBucket = LootBucket(Name: string, MatchOne: bool, Items: seq<LootBucketItem>)

  /** The parsed data set. */
  datatype Loot = Loot(lootTables: seq<LootTable>, lootBuckets: seq<LootBucket>)

  /** A resolved item; Probability is a mathematical probability. */
  datatype AnalyzedLootItem = AnalyzedLootItem(
    Name: string,
    GearScore: Option<NumberRange>,
    Quantity: NumberRange,
    Probability: real,
    PerkBucketOverrides: Option<string>,
    PerkOverrides: Option<string>,
    Conditions: Conditions)

  /** A resolved table; Multiple means several of its items can be received. */
  datatype AnalyzedLootTable = AnalyzedLootTable(
    Id: string,
    Multiple: bool,
    HighWaterMarkMultiplier: int,
    UseLevelGearScore: bool,
    GearScoreBonus: int,
    LuckSafe: bool,
    Items: seq<AnalyzedLootItem>)
}
