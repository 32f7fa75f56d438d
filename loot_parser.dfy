/**
 * The row assembly of the loot parser (src/LootParser.ts), starting from rows
 * that have already been decoded from JSON: loot-table rows are grouped into
 * tables by id (main row, "_Qty" row, "_Probs" row), and loot-bucket rows
 * into the buckets defined by the FIRSTROW row.
 */
module LootParsing {
  import opened LootModel
  import opened JsText
  import opened RowDecoding

  /** Upper bound on the number of buckets one row may define. */
  const RowItemsBound: nat := 1000
  const QuantitySuffix := "_Qty"
  const ProbabilitySuffix := "_Probs"
  /** Number.MAX_SAFE_INTEGER, the open upper end of a level written in a probability row. */
  const MaxSafeInteger: int := 9007199254740991
  const DefinitionRowMarker := "FIRSTROW"

  /** A field of a raw row named by a prefix and an item index, such as "Item3" or "Quantity12". */
  datatype Key = Key(prefix: string, index: nat)

  type Row = map<Key, RawValue>

  /** The field prefix+index of a row; None when the row has no such field. */
  function Get(cells: Row, prefix: string, index: nat): Option<RawValue> {
    if Key(prefix, index) in cells then Some(cells[Key(prefix, index)]) else None
  }

  function KeysFrom(cells: Row, prefix: string, from: nat): set<Key> {
    set k | k in cells.Keys && k.prefix == prefix && k.index >= from
  }

  /** How many of the fields prefix+from, prefix+(from+1), ... are truthy before the first that is not. */
  function RunLength(cells: Row, prefix: string, from: nat): (n: nat)
    ensures forall j :: from <= j < from + n ==> Truthy(Get(cells, prefix, j))
    ensures !Truthy(Get(cells, prefix, from + n))
    decreases KeysFrom(cells, prefix, from)
  {
    if Truthy(Get(cells, prefix, from)) then
      assert Key(prefix, from) in KeysFrom(cells, prefix, from) - KeysFrom(cells, prefix, from + 1);
      1 + RunLength(cells, prefix, from + 1)
    else 0
  }

  /** The run length is the only count with both properties. */
  lemma {:induction false} RunLengthExact(cells: Row, prefix: string, from: nat, n: nat)
    requires forall j :: from <= j < from + n ==> Truthy(Get(cells, prefix, j))
    requires !Truthy(Get(cells, prefix, from + n))
    ensures RunLength(cells, prefix, from) == n
    decreases n
  {
    if n > 0 {
      assert Truthy(Get(cells, prefix, from));
      RunLengthExact(cells, prefix, from + 1, n - 1);
    }
  }

  /** The integer a probability row holds for item i. */
  function CellIntAt(cells: Row, prefix: string, index: nat): int {
    match Get(cells, prefix, index)
    case None => 0
    case Some(v) => CellInt(v)
  }

  // ---------------------------------------------------------------- loot tables

  /** One decoded row of the loot-table sheet. */
  datatype RawLootTableEntry = RawLootTableEntry(
    LootTableID: string,
    AndOr: Option<AndOr>,
    HWMMult: int,
    GSBonus: int,
    MaxRoll: Option<int>,
    Conditions: Option<string>,
    UseLevelGS: Option<RawValue>,
    LuckSafe: Option<RawValue>,
    cells: Row)

  /** An item of a table under construction; its conditions are the table's. */
  datatype DraftItem = DraftItem(
    Name: string,
    GearScore: Option<NumberRange>,
    Quantity: NumberRange,
    Probability: int,
    PerkBucketOverrides: Option<string>,
    PerkOverrides: Option<string>)

  /**
   * A table under construction. All its items share one Conditions object,
   * so the conditions are held once, for the whole table.
   */
  datatype TableDraft = TableDraft(
    LootTableID: string,
    AndOr: Option<AndOr>,
    HighWaterMarkMultiplier: int,
    GearScoreBonus: int,
    MaxRoll: Option<int>,
    UseLevelGearScore: bool,
    LuckSafe: bool,
    Items: seq<DraftItem>,
    Conditions: InternalConditions)

  /** Item i of a main row, with placeholder quantity and probability. */
  function MainItem(cells: Row, i: nat): DraftItem {
    DraftItem(
      CellText(Get(cells, "Item", i)),
      Some(ParseRange(Get(cells, "GearScoreRange", i))),
      NumberRange(0, 0),
      0,
      CellString(Get(cells, "PerkBucketOverrides", i)),
      CellString(Get(cells, "PerkOverrides", i)))
  }

  function MainItems(cells: Row, count: nat): (items: seq<DraftItem>)
    ensures |items| == count
  {
    seq(count, k requires 0 <= k < count => MainItem(cells, k + 1))
  }

  /** The table a main row stands for: items Item1..ItemN up to the first missing or falsy field. */
  function MainEntry(rawEntry: RawLootTableEntry): TableDraft {
    TableDraft(
      rawEntry.LootTableID, rawEntry.AndOr, rawEntry.HWMMult, rawEntry.GSBonus, None,
      ParseBoolean(rawEntry.UseLevelGS), ParseBoolean(rawEntry.LuckSafe),
      MainItems(rawEntry.cells, RunLength(rawEntry.cells, "Item", 1)),
      TableConditions(rawEntry.Conditions))
  }

  /** Parses a main row, pushing one item per truthy Item field. */
  method ParseMainEntry(rawEntry: RawLootTableEntry) returns (table: TableDraft)
    ensures table == MainEntry(rawEntry)
  {
    var cells := rawEntry.cells;
    ghost var n := RunLength(cells, "Item", 1);
    var conditions := ParseConditions(rawEntry.Conditions);
    table := TableDraft(
      rawEntry.LootTableID, rawEntry.AndOr, rawEntry.HWMMult, rawEntry.GSBonus, None,
      ParseBoolean(rawEntry.UseLevelGS), ParseBoolean(rawEntry.LuckSafe), [], conditions);
    var itemIndex := 1;
    while Truthy(Get(cells, "Item", itemIndex))
      invariant 1 <= itemIndex <= n + 1
      invariant table == MainEntry(rawEntry).(Items := MainItems(cells, itemIndex - 1))
      decreases n + 1 - itemIndex
    {
      table := table.(Items := table.Items + [MainItem(cells, itemIndex)]);
      assert MainItems(cells, itemIndex) == MainItems(cells, itemIndex - 1) + [MainItem(cells, itemIndex)];
      itemIndex := itemIndex + 1;
    }
  }

  /** A main row gives one item per leading truthy Item field, each with quantity {0, 0} and roll 0. */
  lemma MainEntryItems(rawEntry: RawLootTableEntry)
    ensures var t := MainEntry(rawEntry);
      var items := t.Items;
      (forall i :: 1 <= i <= |items| ==> Truthy(Get(rawEntry.cells, "Item", i)))
      && !Truthy(Get(rawEntry.cells, "Item", |items| + 1))
      && (forall k :: 0 <= k < |items| ==>
            items[k].Name == CellText(Get(rawEntry.cells, "Item", k + 1))
            && items[k].Quantity == NumberRange(0, 0) && items[k].Probability == 0)
      && t.Conditions == TableConditions(rawEntry.Conditions)
      && t.MaxRoll.None?
  {
  }

  /** The outcome of amending a table with a quantity or probability row. */
  datatype Amendment =
    | MainTableMissing
    | Amended(table: TableDraft)
    | ItemIndexOutOfRange(index: nat)

  /** Items with the first `count` quantities taken from a quantity row. */
  function QuantitiesSet(items: seq<DraftItem>, cells: Row, count: nat): (r: seq<DraftItem>)
    ensures |r| == |items|
  {
    seq(|items|, k requires 0 <= k < |items| =>
      if k < count then items[k].(Quantity := ParseRange(Get(cells, "Item", k + 1))) else items[k])
  }

  /**
   * What a quantity row does to its main table: a missing table is left
   * alone, a row with more items than the table fails, and otherwise item i
   * gets the quantity in field Item i.
   */
  function QuantityAmended(mainEntry: Option<TableDraft>, quantityEntry: RawLootTableEntry): (a: Amendment)
    ensures mainEntry.None? <==> a.MainTableMissing?
    ensures a.Amended? ==> |a.table.Items| == |mainEntry.value.Items|
  {
    if mainEntry.None? then MainTableMissing
    else
      var t := mainEntry.value;
      var n := RunLength(quantityEntry.cells, "Item", 1);
      if n > |t.Items| then ItemIndexOutOfRange(|t.Items| + 1)
      else Amended(t.(Items := QuantitiesSet(t.Items, quantityEntry.cells, n)))
  }

  /** Amends a table with a quantity row, item by item. */
  method ParseQuantityEntry(mainEntry: Option<TableDraft>, quantityEntry: RawLootTableEntry) returns (a: Amendment)
    ensures a == QuantityAmended(mainEntry, quantityEntry)
  {
    if mainEntry.None? {
      return MainTableMissing;
    }
    var start := mainEntry.value;
    var cells := quantityEntry.cells;
    ghost var n := RunLength(cells, "Item", 1);
    var table := start;
    var itemIndex := 1;
    while Truthy(Get(cells, "Item", itemIndex))
      invariant 1 <= itemIndex <= n + 1
      invariant itemIndex - 1 <= |start.Items|
      invariant table == start.(Items := QuantitiesSet(start.Items, cells, itemIndex - 1))
      decreases n + 1 - itemIndex
    {
      if itemIndex - 1 >= |table.Items| {
        return ItemIndexOutOfRange(itemIndex);
      }
      var item := table.Items[itemIndex - 1];
      table := table.(Items := table.Items[itemIndex - 1 := item.(Quantity := ParseRange(Get(cells, "Item", itemIndex)))]);
      itemIndex := itemIndex + 1;
    }
    return Amended(table);
  }

  /** A quantity row sets the quantities of its leading items and changes nothing else. */
  lemma QuantityAmendedItems(mainEntry: TableDraft, quantityEntry: RawLootTableEntry)
    requires QuantityAmended(Some(mainEntry), quantityEntry).Amended?
    ensures var t := QuantityAmended(Some(mainEntry), quantityEntry).table;
      var n := RunLength(quantityEntry.cells, "Item", 1);
      n <= |mainEntry.Items|
      && t == mainEntry.(Items := t.Items)
      && forall k :: 0 <= k < |mainEntry.Items| ==>
           t.Items[k] == mainEntry.Items[k].(Quantity := t.Items[k].Quantity)
           && t.Items[k].Quantity == (if k < n then ParseRange(Get(quantityEntry.cells, "Item", k + 1)) else mainEntry.Items[k].Quantity)
  {
  }

  /** Conditions with the level range of the given kind replaced. */
  function WithLevel(conditions: InternalConditions, kind: string, range: NumberRange): (c: InternalConditions)
    ensures c.probabilityType == conditions.probabilityType
  {
    var levels := conditions.Public.Levels;
    var newLevels :=
      if kind == "Level" then levels.(Character := Some(range))
      else if kind == "EnemyLevel" then levels.(Enemy := Some(range))
      else if kind == "MinPOIContLevel" then levels.(Content := Some(range))
      else levels;
    conditions.(Public := conditions.Public.(Levels := newLevels))
  }

  /** The level a probability row writes for item i: from its value up to MAX_SAFE_INTEGER. */
  function LevelFrom(cells: Row, i: nat): NumberRange {
    NumberRange(CellIntAt(cells, "Item", i), MaxSafeInteger)
  }

  /**
   * The first `count` items of a probability row applied to a table. When
   * the table's conditions name a level kind, each of those items gets roll 0
   * and the shared level range is overwritten, so the last item's value is
   * the one that stays; otherwise each item gets its roll threshold.
   */
  function ProbabilitiesApplied(t: TableDraft, cells: Row, count: nat): (r: TableDraft)
    ensures |r.Items| == |t.Items|
  {
    var typed := t.Conditions.probabilityType.Some?;
    var items := seq(|t.Items|, k requires 0 <= k < |t.Items| =>
      if k < count then t.Items[k].(Probability := if typed then 0 else CellIntAt(cells, "Item", k + 1))
      else t.Items[k]);
    var conditions :=
      if typed && count > 0 then WithLevel(t.Conditions, t.Conditions.probabilityType.value, LevelFrom(cells, count))
      else t.Conditions;
    t.(Items := items, Conditions := conditions)
  }

  /**
   * What a probability row does to its main table: a missing table is left
   * alone; otherwise MaxRoll is copied from the row, and then a row with more
   * items than the table fails, and the others apply their values.
   */
  function ProbabilityAmended(mainEntry: Option<TableDraft>, probabilityEntry: RawLootTableEntry): (a: Amendment)
    ensures mainEntry.None? <==> a.MainTableMissing?
  {
    if mainEntry.None? then MainTableMissing
    else
      var t := mainEntry.value.(MaxRoll := probabilityEntry.MaxRoll);
      var n := RunLength(probabilityEntry.cells, "Item", 1);
      if n > |t.Items| then ItemIndexOutOfRange(|t.Items| + 1)
      else Amended(ProbabilitiesApplied(t, probabilityEntry.cells, n))
  }

  /** Amends a table with a probability row, item by item. */
  method ParseProbabilityEntry(mainEntry: Option<TableDraft>, probabilityEntry: RawLootTableEntry) returns (a: Amendment)
    ensures a == ProbabilityAmended(mainEntry, probabilityEntry)
  {
    if mainEntry.None? {
      return MainTableMissing;
    }
    var cells := probabilityEntry.cells;
    ghost var n := RunLength(cells, "Item", 1);
    var start := mainEntry.value.(MaxRoll := probabilityEntry.MaxRoll);
    var table := start;
    var itemIndex := 1;
    while Truthy(Get(cells, "Item", itemIndex))
      invariant 1 <= itemIndex <= n + 1
      invariant itemIndex - 1 <= |start.Items|
      invariant table == ProbabilitiesApplied(start, cells, itemIndex - 1)
      decreases n + 1 - itemIndex
    {
      if itemIndex - 1 >= |table.Items| {
        return ItemIndexOutOfRange(itemIndex);
      }
      var item := table.Items[itemIndex - 1];
      var probability := CellIntAt(cells, "Item", itemIndex);
      var conditions := table.Conditions;
      if conditions.probabilityType.Some? {
        item := item.(Probability := 0);
        var kind := conditions.probabilityType.value;
        var level := NumberRange(probability, MaxSafeInteger);
        if kind == "Level" {
          conditions := conditions.(Public := conditions.Public.(Levels := conditions.Public.Levels.(Character := Some(level))));
        } else if kind == "EnemyLevel" {
          conditions := conditions.(Public := conditions.Public.(Levels := conditions.Public.Levels.(Enemy := Some(level))));
        } else if kind == "MinPOIContLevel" {
          conditions := conditions.(Public := conditions.Public.(Levels := conditions.Public.Levels.(Content := Some(level))));
        }
      } else {
        item := item.(Probability := probability);
      }
      table := table.(Items := table.Items[itemIndex - 1 := item], Conditions := conditions);
      itemIndex := itemIndex + 1;
    }
    return Amended(table);
  }

  /**
   * A probability row on a table without a level kind sets the roll
   * thresholds of its leading items and MaxRoll, and nothing else.
   */
  lemma ProbabilityAmendedRolls(mainEntry: TableDraft, probabilityEntry: RawLootTableEntry)
    requires mainEntry.Conditions.probabilityType.None?
    requires ProbabilityAmended(Some(mainEntry), probabilityEntry).Amended?
    ensures var t := ProbabilityAmended(Some(mainEntry), probabilityEntry).table;
      var n := RunLength(probabilityEntry.cells, "Item", 1);
      t.MaxRoll == probabilityEntry.MaxRoll
      && t.Conditions == mainEntry.Conditions
      && |t.Items| == |mainEntry.Items|
      && forall k :: 0 <= k < |mainEntry.Items| ==>
           t.Items[k] == mainEntry.Items[k].(Probability := t.Items[k].Probability)
           && t.Items[k].Probability == (if k < n then CellIntAt(probabilityEntry.cells, "Item", k + 1) else mainEntry.Items[k].Probability)
  {
  }

  /**
   * A probability row on a table with a level kind sets the roll of each of
   * its items to 0 and the table's level of that kind to the last item's
   * value up to MAX_SAFE_INTEGER.
   */
  lemma ProbabilityAmendedLevels(mainEntry: TableDraft, probabilityEntry: RawLootTableEntry)
    requires mainEntry.Conditions.probabilityType == Some("Level")
      || mainEntry.Conditions.probabilityType == Some("EnemyLevel")
      || mainEntry.Conditions.probabilityType == Some("MinPOIContLevel")
    requires ProbabilityAmended(Some(mainEntry), probabilityEntry).Amended?
    requires RunLength(probabilityEntry.cells, "Item", 1) > 0
    ensures var t := ProbabilityAmended(Some(mainEntry), probabilityEntry).table;
      var n := RunLength(probabilityEntry.cells, "Item", 1);
      var kind := mainEntry.Conditions.probabilityType.value;
      var level := Some(NumberRange(CellIntAt(probabilityEntry.cells, "Item", n), MaxSafeInteger));
      var levels := t.Conditions.Public.Levels;
      (forall k :: 0 <= k < n ==> t.Items[k].Probability == 0)
      && (kind == "Level" ==> levels.Character == level)
      && (kind == "EnemyLevel" ==> levels.Enemy == level)
      && (kind == "MinPOIContLevel" ==> levels.Content == level)
      && t.Conditions.Public.Named == mainEntry.Conditions.Public.Named
  {
  }

  /** The state of the table loop: tables by id, and the ids in order of first insertion. */
  datatype LoadState = LoadState(tables: map<string, TableDraft>, order: seq<string>)

  /** Every table is listed once, under its own id. */
  ghost predicate Consistent(s: LoadState) {
    (forall id :: id in s.tables <==> id in s.order)
    && (forall j, k :: 0 <= j < k < |s.order| ==> s.order[j] != s.order[k])
    && (forall id :: id in s.tables ==> s.tables[id].LootTableID == id)
  }

  const EmptyLoadState := LoadState(map[], [])

  /** Parsing fails when a quantity or probability row has more items than its table. */
  datatype ParseResult<T> = Parsed(value: T) | RowError(rowId: string, index: nat)

  function Lookup(tables: map<string, TableDraft>, id: string): Option<TableDraft> {
    if id in tables then Some(tables[id]) else None
  }

  /** Puts an amended table back under its name; a missing main table changes nothing. */
  function StoreAmendment(s: LoadState, name: string, a: Amendment, rowId: string): ParseResult<LoadState> {
    match a
    case MainTableMissing => Parsed(s)
    case Amended(t) => Parsed(s.(tables := s.tables[name := t]))
    case ItemIndexOutOfRange(i) => RowError(rowId, i)
  }

  /**
   * One row of the table loop: a "_Qty" row amends the quantities and a
   * "_Probs" row the probabilities of the table named by the id without the
   * suffix; any other row creates or replaces the table under its id.
   */
  function LoadRow(s: LoadState, row: RawLootTableEntry): (r: ParseResult<LoadState>)
    ensures Consistent(s) && r.Parsed? ==> Consistent(r.value)
    ensures r.Parsed? ==> s.order <= r.value.order
  {
    var id := row.LootTableID;
    if EndsWith(id, QuantitySuffix) then
      var name := RemoveSuffix(id, QuantitySuffix);
      StoreAmendment(s, name, QuantityAmended(Lookup(s.tables, name), row), id)
    else if EndsWith(id, ProbabilitySuffix) then
      var name := RemoveSuffix(id, ProbabilitySuffix);
      StoreAmendment(s, name, ProbabilityAmended(Lookup(s.tables, name), row), id)
    else
      Parsed(LoadState(s.tables[id := MainEntry(row)], if id in s.tables then s.order else s.order + [id]))
  }

  /** The table loop over a list of rows; it stops at the first failing row. */
  function LoadRows(rows: seq<RawLootTableEntry>): (r: ParseResult<LoadState>)
    ensures r.Parsed? ==> Consistent(r.value)
  {
    if rows == [] then Parsed(EmptyLoadState)
    else
      match LoadRows(rows[..|rows| - 1])
      case RowError(id, i) => RowError(id, i)
      case Parsed(s) => LoadRow(s, rows[|rows| - 1])
  }

  /** The finished table: every item gets the table's conditions, and an unset MaxRoll is 0. */
  function Finalize(draft: TableDraft): (t: LootTable)
    ensures t.LootTableID == draft.LootTableID && t.AndOr == draft.AndOr
    ensures t.HighWaterMarkMultiplier == draft.HighWaterMarkMultiplier && t.GearScoreBonus == draft.GearScoreBonus
    ensures t.MaxRoll == draft.MaxRoll.GetOr(0)
    ensures t.UseLevelGearScore == draft.UseLevelGearScore && t.LuckSafe == draft.LuckSafe
    ensures |t.Items| == |draft.Items|
    ensures forall k :: 0 <= k < |t.Items| ==>
      var (item, d) := (t.Items[k], draft.Items[k]);
      item.Name == d.Name && item.GearScore == d.GearScore && item.Quantity == d.Quantity
      && item.Probability == d.Probability && item.PerkBucketOverrides == d.PerkBucketOverrides
      && item.PerkOverrides == d.PerkOverrides && item.Conditions == draft.Conditions.Public
  {
    LootTable(
      draft.LootTableID, draft.AndOr, draft.HighWaterMarkMultiplier, draft.GearScoreBonus,
      draft.MaxRoll.GetOr(0),
      seq(|draft.Items|, k requires 0 <= k < |draft.Items| =>
        var item := draft.Items[k];
        LootTableItem(item.Name, item.GearScore, item.Quantity, item.Probability,
          item.PerkBucketOverrides, item.PerkOverrides, draft.Conditions.Public)),
      draft.UseLevelGearScore, draft.LuckSafe)
  }

  /** The tables of a finished loop, in order of first insertion. */
  function Finalized(s: LoadState): (tables: seq<LootTable>)
    requires Consistent(s)
    ensures |tables| == |s.order|
  {
    seq(|s.order|, k requires 0 <= k < |s.order| => Finalize(s.tables[s.order[k]]))
  }

  function TablesOf(r: ParseResult<LoadState>): ParseResult<seq<LootTable>>
    requires r.Parsed? ==> Consistent(r.value)
  {
    match r
    case Parsed(s) => Parsed(Finalized(s))
    case RowError(id, i) => RowError(id, i)
  }

  /** A failing row makes the whole list of rows fail with its error. */
  lemma {:induction false} LoadRowsKeepsError(rows: seq<RawLootTableEntry>, i: nat)
    requires i <= |rows| && LoadRows(rows[..i]).RowError?
    ensures LoadRows(rows) == LoadRows(rows[..i])
    decreases |rows| - i
  {
    if i < |rows| {
      assert rows[..i + 1][..i] == rows[..i];
      LoadRowsKeepsError(rows, i + 1);
    } else {
      assert rows[..i] == rows;
    }
  }

  /** Parses the rows of a loot-table sheet. */
  method ParseLootTables(rawContent: seq<RawLootTableEntry>) returns (result: ParseResult<seq<LootTable>>)
    ensures result == TablesOf(LoadRows(rawContent))
  {
    var loadedTables: map<string, TableDraft> := map[];
    var order: seq<string> := [];
    for i := 0 to |rawContent|
      invariant LoadRows(rawContent[..i]) == Parsed(LoadState(loadedTables, order))
    {
      var rawEntry := rawContent[i];
      var id := rawEntry.LootTableID;
      assert rawContent[..i + 1][..i] == rawContent[..i];
      if EndsWith(id, QuantitySuffix) {
        var name := RemoveSuffix(id, QuantitySuffix);
        var a := ParseQuantityEntry(Lookup(loadedTables, name), rawEntry);
        if a.ItemIndexOutOfRange? {
          LoadRowsKeepsError(rawContent, i + 1);
          return RowError(id, a.index);
        } else if a.Amended? {
          loadedTables := loadedTables[name := a.table];
        }
      } else if EndsWith(id, ProbabilitySuffix) {
        var name := RemoveSuffix(id, ProbabilitySuffix);
        var a := ParseProbabilityEntry(Lookup(loadedTables, name), rawEntry);
        if a.ItemIndexOutOfRange? {
          LoadRowsKeepsError(rawContent, i + 1);
          return RowError(id, a.index);
        } else if a.Amended? {
          loadedTables := loadedTables[name := a.table];
        }
      } else {
        var table := ParseMainEntry(rawEntry);
        if id !in loadedTables {
          order := order + [id];
        }
        loadedTables := loadedTables[id := table];
      }
    }
    assert rawContent[..|rawContent|] == rawContent;
    return Parsed(Finalized(LoadState(loadedTables, order)));
  }

  /** Each parsed table appears once: the ids of the result are pairwise distinct. */
  lemma ParsedTableIdsDistinct(rows: seq<RawLootTableEntry>)
    requires LoadRows(rows).Parsed?
    ensures var tables := TablesOf(LoadRows(rows)).value;
      forall j, k :: 0 <= j < k < |tables| ==> tables[j].LootTableID != tables[k].LootTableID
  {
  }

  /** All the items of a parsed table carry the same conditions, the table's. */
  lemma ParsedTableItemsShareConditions(rows: seq<RawLootTableEntry>)
    requires LoadRows(rows).Parsed?
    ensures var tables := TablesOf(LoadRows(rows)).value;
      forall t, j, k :: t in tables && 0 <= j < |t.Items| && 0 <= k < |t.Items| ==>
        t.Items[j].Conditions == t.Items[k].Conditions
  {
  }

  /** A main row creates or replaces the table under its id and leaves the other tables alone. */
  lemma MainRowStoresTable(s: LoadState, row: RawLootTableEntry)
    requires !EndsWith(row.LootTableID, QuantitySuffix) && !EndsWith(row.LootTableID, ProbabilitySuffix)
    ensures LoadRow(s, row).Parsed?
    ensures var t := LoadRow(s, row).value.tables;
      t.Keys == s.tables.Keys + {row.LootTableID}
      && t[row.LootTableID] == MainEntry(row)
      && forall id :: id in s.tables && id != row.LootTableID ==> t[id] == s.tables[id]
  {
  }

  /** A "_Qty" or "_Probs" row whose table is missing changes nothing. */
  lemma MissingMainTableIgnored(s: LoadState, row: RawLootTableEntry)
    requires EndsWith(row.LootTableID, QuantitySuffix) || EndsWith(row.LootTableID, ProbabilitySuffix)
    requires EndsWith(row.LootTableID, QuantitySuffix) ==> RemoveSuffix(row.LootTableID, QuantitySuffix) !in s.tables
    requires EndsWith(row.LootTableID, ProbabilitySuffix) ==> RemoveSuffix(row.LootTableID, ProbabilitySuffix) !in s.tables
    ensures LoadRow(s, row) == Parsed(s)
  {
  }

  /** A "_Qty" row amends only the table named by its id without the suffix. */
  lemma QuantityRowAmendsBaseTable(s: LoadState, name: string, row: RawLootTableEntry)
    requires row.LootTableID == name + QuantitySuffix && name in s.tables
    requires QuantityAmended(Some(s.tables[name]), row).Amended?
    ensures LoadRow(s, row) == Parsed(s.(tables := s.tables[name := QuantityAmended(Some(s.tables[name]), row).table]))
  {
    RemoveSuffixOfAppended(name, QuantitySuffix);
    assert (name + QuantitySuffix)[|name|..] == QuantitySuffix;
  }

  // ---------------------------------------------------------------- loot buckets

  /** One decoded row of the loot-bucket sheet. */
  datatype RawLootBucketRow = RawLootBucketRow(RowPlaceholders: string, cells: Row)

  /** Bucket i as the definition row declares it, still without items. */
  function BucketDefinition(row: RawLootBucketRow, i: nat): LootBucket {
    LootBucket(CellText(Get(row.cells, "LootBucket", i)), ParseBoolean(Get(row.cells, "MatchOne", i)), [])
  }

  function Min(a: nat, b: nat): nat { if a <= b then a else b }

  /**
   * The buckets LootBucket1..LootBucketN of a definition row, up to the
   * first missing or falsy field and at most RowItemsBound of them.
   */
  function BucketDefinitions(row: RawLootBucketRow): (buckets: seq<LootBucket>)
    ensures |buckets| <= RowItemsBound
  {
    var count := Min(RunLength(row.cells, "LootBucket", 1), RowItemsBound);
    seq(count, k requires 0 <= k < count => BucketDefinition(row, k + 1))
  }

  /** Reads the bucket definitions, stopping at the first falsy field or past the bound. */
  method ParseLootBucketDefinitions(row: RawLootBucketRow) returns (buckets: seq<LootBucket>)
    ensures buckets == BucketDefinitions(row)
  {
    ghost var n := RunLength(row.cells, "LootBucket", 1);
    buckets := [];
    var itemIndex := 1;
    while Truthy(Get(row.cells, "LootBucket", itemIndex))
      invariant 1 <= itemIndex <= RowItemsBound + 1 && itemIndex <= n + 1
      invariant |buckets| == itemIndex - 1
      invariant forall k :: 0 <= k < |buckets| ==> buckets[k] == BucketDefinition(row, k + 1)
      decreases RowItemsBound + 1 - itemIndex
    {
      if itemIndex > RowItemsBound {
        break;
      }
      buckets := buckets + [BucketDefinition(row, itemIndex)];
      itemIndex := itemIndex + 1;
    }
  }

  /** The first row marked FIRSTROW, if any. */
  function DefinitionRow(rows: seq<RawLootBucketRow>): (r: Option<RawLootBucketRow>)
    ensures r.Some? ==> r.value in rows && r.value.RowPlaceholders == DefinitionRowMarker
    ensures r.None? ==> forall k :: 0 <= k < |rows| ==> rows[k].RowPlaceholders != DefinitionRowMarker
  {
    if rows == [] then None
    else if rows[0].RowPlaceholders == DefinitionRowMarker then Some(rows[0])
    else DefinitionRow(rows[1..])
  }

  lemma {:induction false} DefinitionRowAt(rows: seq<RawLootBucketRow>, i: nat)
    requires i < |rows| && rows[i].RowPlaceholders == DefinitionRowMarker
    requires forall k :: 0 <= k < i ==> rows[k].RowPlaceholders != DefinitionRowMarker
    ensures DefinitionRow(rows) == Some(rows[i])
  {
    if i > 0 {
      DefinitionRowAt(rows[1..], i - 1);
    }
  }

  function Definitions(rows: seq<RawLootBucketRow>): seq<LootBucket> {
    match DefinitionRow(rows)
    case None => []
    case Some(row) => BucketDefinitions(row)
  }

  /** Item i of a bucket row. */
  function BucketItem(row: RawLootBucketRow, i: nat): LootBucketItem {
    LootBucketItem(
      CellText(Get(row.cells, "Item", i)),
      ParseRange(Get(row.cells, "Quantity", i)),
      TagConditions(ParseList(CellString(Get(row.cells, "Tags", i)))))
  }

  /** The items the rows give bucket i: one per row whose Quantity i is truthy, in row order. */
  function BucketItemsFrom(rows: seq<RawLootBucketRow>, i: nat): (items: seq<LootBucketItem>)
    ensures |items| <= |rows|
  {
    if rows == [] then []
    else
      var last := rows[|rows| - 1];
      BucketItemsFrom(rows[..|rows| - 1], i) + (if Truthy(Get(last.cells, "Quantity", i)) then [BucketItem(last, i)] else [])
  }

  /** The buckets of a loot-bucket sheet: the definitions, each filled from all rows. */
  function AssembledBuckets(rows: seq<RawLootBucketRow>): (buckets: seq<LootBucket>)
    ensures |buckets| <= RowItemsBound
  {
    var defs := Definitions(rows);
    seq(|defs|, k requires 0 <= k < |defs| => defs[k].(Items := BucketItemsFrom(rows, k + 1)))
  }

  lemma BucketItemsStep(rows: seq<RawLootBucketRow>, r: nat, i: nat)
    requires r < |rows|
    ensures BucketItemsFrom(rows[..r + 1], i) ==
      BucketItemsFrom(rows[..r], i) + (if Truthy(Get(rows[r].cells, "Quantity", i)) then [BucketItem(rows[r], i)] else [])
  {
    assert rows[..r + 1][..r] == rows[..r];
  }

  /** The definitions of the first FIRSTROW row; none without such a row. */
  method FindBucketDefinitions(rawContent: seq<RawLootBucketRow>) returns (lootBuckets: seq<LootBucket>)
    ensures lootBuckets == Definitions(rawContent)
  {
    lootBuckets := [];
    var r := 0;
    while r < |rawContent|
      invariant 0 <= r <= |rawContent|
      invariant forall k :: 0 <= k < r ==> rawContent[k].RowPlaceholders != DefinitionRowMarker
    {
      if rawContent[r].RowPlaceholders == DefinitionRowMarker {
        lootBuckets := ParseLootBucketDefinitions(rawContent[r]);
        DefinitionRowAt(rawContent, r);
        return;
      }
      r := r + 1;
    }
  }

  /** Bucket i with the item a row gives it appended, when the row's Quantity i is truthy. */
  function WithRowItem(bucket: LootBucket, row: RawLootBucketRow, i: nat): LootBucket {
    if Truthy(Get(row.cells, "Quantity", i)) then bucket.(Items := bucket.Items + [BucketItem(row, i)]) else bucket
  }

  /** The buckets after the items of a row for buckets 1..n have been added. */
  function RowItemsAdded(buckets: seq<LootBucket>, row: RawLootBucketRow, n: nat): (r: seq<LootBucket>)
    requires n <= |buckets|
    ensures |r| == |buckets|
  {
    if n == 0 then buckets
    else
      var before := RowItemsAdded(buckets, row, n - 1);
      before[n - 1 := WithRowItem(before[n - 1], row, n)]
  }

  /** Adding a row's items for buckets 1..n changes exactly those buckets, each by its own item. */
  lemma {:induction false} RowItemsAddedEach(buckets: seq<LootBucket>, row: RawLootBucketRow, n: nat)
    requires n <= |buckets|
    ensures forall k :: 0 <= k < |buckets| ==>
      RowItemsAdded(buckets, row, n)[k] == if k < n then WithRowItem(buckets[k], row, k + 1) else buckets[k]
  {
    if n > 0 {
      RowItemsAddedEach(buckets, row, n - 1);
    }
  }

  /** Adds the items of one bucket row to the buckets it names, skipping falsy quantities. */
  method AddRowItems(buckets: seq<LootBucket>, row: RawLootBucketRow) returns (updated: seq<LootBucket>)
    ensures updated == RowItemsAdded(buckets, row, |buckets|)
  {
    updated := buckets;
    for itemIndex := 1 to |buckets| + 1
      invariant updated == RowItemsAdded(buckets, row, itemIndex - 1)
    {
      if !Truthy(Get(row.cells, "Quantity", itemIndex)) {
        continue;
      }
      var bucket := updated[itemIndex - 1];
      var item := ParseBucketItem(row, itemIndex);
      updated := updated[itemIndex - 1 := bucket.(Items := bucket.Items + [item])];
    }
  }

  /** Reads item i of a bucket row: its name, its quantity range and the conditions its tags give. */
  method ParseBucketItem(row: RawLootBucketRow, i: nat) returns (item: LootBucketItem)
    ensures item == BucketItem(row, i)
  {
    var tags := ParseTags(ParseList(CellString(Get(row.cells, "Tags", i))));
    item := LootBucketItem(CellText(Get(row.cells, "Item", i)), ParseRange(Get(row.cells, "Quantity", i)), tags);
  }

  /** Parses the rows of a loot-bucket sheet. */
  method ParseLootBuckets(rawContent: seq<RawLootBucketRow>) returns (lootBuckets: seq<LootBucket>)
    ensures lootBuckets == AssembledBuckets(rawContent)
  {
    lootBuckets := FindBucketDefinitions(rawContent);
    ghost var defs := lootBuckets;
    for r := 0 to |rawContent|
      invariant |lootBuckets| == |defs|
      invariant forall k :: 0 <= k < |defs| ==> lootBuckets[k] == defs[k].(Items := BucketItemsFrom(rawContent[..r], k + 1))
    {
      ghost var before := lootBuckets;
      lootBuckets := AddRowItems(lootBuckets, rawContent[r]);
      RowItemsAddedEach(before, rawContent[r], |before|);
      forall k | 0 <= k < |defs|
        ensures lootBuckets[k] == defs[k].(Items := BucketItemsFrom(rawContent[..r + 1], k + 1))
      {
        BucketItemsStep(rawContent, r, k + 1);
        assert lootBuckets[k] == WithRowItem(before[k], rawContent[r], k + 1);
      }
    }
    assert rawContent[..|rawContent|] == rawContent;
  }

  /** Rows contribute to a bucket in row order: the items of two row lists are concatenated. */
  lemma {:induction false} BucketItemsConcat(a: seq<RawLootBucketRow>, b: seq<RawLootBucketRow>, i: nat)
    ensures BucketItemsFrom(a + b, i) == BucketItemsFrom(a, i) + BucketItemsFrom(b, i)
    decreases |b|
  {
    if b == [] {
      assert a + b == a;
    } else {
      var b' := b[..|b| - 1];
      assert (a + b)[..|a + b| - 1] == a + b';
      BucketItemsConcat(a, b', i);
    }
  }

  /** Every row with a truthy Quantity i gives bucket i its item. */
  lemma RowItemInBucket(rows: seq<RawLootBucketRow>, i: nat, j: nat)
    requires j < |rows| && Truthy(Get(rows[j].cells, "Quantity", i))
    ensures BucketItem(rows[j], i) in BucketItemsFrom(rows, i)
  {
    assert rows == rows[..j] + [rows[j]] + rows[j + 1..];
    BucketItemsConcat(rows[..j] + [rows[j]], rows[j + 1..], i);
    BucketItemsConcat(rows[..j], [rows[j]], i);
    assert BucketItemsFrom([rows[j]], i) == [BucketItem(rows[j], i)] by {
      assert [rows[j]][..0] == [];
    }
  }

  /** Every item of bucket i comes from a row with a truthy Quantity i. */
  lemma {:induction false} BucketItemFromRow(rows: seq<RawLootBucketRow>, i: nat, x: LootBucketItem)
    requires x in BucketItemsFrom(rows, i)
    ensures exists j :: 0 <= j < |rows| && Truthy(Get(rows[j].cells, "Quantity", i)) && x == BucketItem(rows[j], i)
  {
    var init := rows[..|rows| - 1];
    var last := rows[|rows| - 1];
    if x in BucketItemsFrom(init, i) {
      BucketItemFromRow(init, i, x);
      var j :| 0 <= j < |init| && Truthy(Get(init[j].cells, "Quantity", i)) && x == BucketItem(init[j], i);
      assert rows[j] == init[j];
    } else {
      assert Truthy(Get(last.cells, "Quantity", i)) && x == BucketItem(last, i);
    }
  }

  /** Without a FIRSTROW row there are no buckets. */
  lemma NoDefinitionRowNoBuckets(rows: seq<RawLootBucketRow>)
    requires forall k :: 0 <= k < |rows| ==> rows[k].RowPlaceholders != DefinitionRowMarker
    ensures AssembledBuckets(rows) == []
  {
  }
}
