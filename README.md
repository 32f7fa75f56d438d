# New World loot analyzer — a Dafny model

This project models the core of the New World datasheet analyzer. The analyzer
turns the game's loot data into a resolved list of drop probabilities and
quantities. The data has two parts:

- **Loot tables.** Each table is a list of items. Every item has a roll
  threshold and a quantity range. An item may also be a reference to another
  table (`[LTID]id`) or to a loot bucket (`[LBID]name`).
- **Loot buckets.** Each bucket is a named pool of items. Every item has its own
  quantity and its own tag conditions.

The model has three parts:

- **The parser's row assembly** (`src/LootParser.ts`), without reading files.
  - Main rows, `_Qty` rows and `_Probs` rows of the loot-table sheet are merged
    into tables.
  - The `FIRSTROW` definition row of the bucket sheet declares the buckets, and
    every row adds one item per truthy `Quantity<i>` field.
  - The cell decoders: booleans, `"100"`/`"100-150"` ranges, comma lists, table
    condition strings and bucket tags.
- **The analyzer** (`src/Analyzer.ts`), as a class with two lazily built
  lookup maps. Its steps are:
  - follow references;
  - multiply quantities and probabilities down the chain;
  - expand small buckets, or emit a placeholder for large ones;
  - filter items against a probability context;
  - divide probabilities by the number of possible items in single-choice
    (`OR`) tables.
- **The record shapes** (`src/Loot.ts`), as datatypes.

Modules:

| module | file | models |
|---|---|---|
| `LootModel` | `loot.dfy` | the records of `src/Loot.ts` |
| `JsText` | `js_text.dfy` | the JavaScript string built-ins the parser uses: `startsWith`, `endsWith`, `indexOf`, `split`, `trim`, `parseInt`, decimal printing |
| `RowDecoding` | `row_decoding.dfy` | the cell decoders of the parser |
| `LootParsing` | `loot_parser.dfy` | the table loop and the bucket loops of the parser |
| `Probabilities` | `probabilities.dfy` | the conversion of roll thresholds to probabilities, range multiplication, renormalisation |
| `ContextFilter` | `context_filter.dfy` | `filterByContext` and `conditionFailed` |
| `Dereference` | `dereference.dfy` | the meaning of `dereferenceItem`, as functions |
| `LootAnalyzer` | `analyzer.dfy` | the `Analyzer` class and properties of a whole analysis |

Each loop of the source is a method, and each method is proved equal to a
function that states what it computes:

| method | proved equal to |
|---|---|
| `ParseLootTables` | `TablesOf(LoadRows(...))` |
| `ParseLootBuckets` | `AssembledBuckets(...)` |
| `Analyzer.Analyze` | `Analysis(...)` |
| `Analyzer.DereferenceItem` | `items + Dereferenced(...)` |
| `FilterByContext` | `Eligible(...)` |
| `AdaptMultiProbabilities` | `Renormalized(old(items[..]), ...)` |

The lemmas then state what the source promises about those functions.

Facts about the code that the model keeps as they are:

- **`conditionFailed` reports true when the context value matches.** Its doc
  comment (`src/Analyzer.ts:266-270`) calls it a check that a condition has
  failed. The code returns true when the value lies inside the expected range
  or equals the expected value, so a matching item is dropped. The model
  keeps this behaviour, and `ContextFilter.CharacterLevelInsideRangeRejects`
  states it.
- **A literal item keeps its own quantity.** The code emits `item.Quantity`,
  not the quantity multiplied by the chain (`src/Analyzer.ts:220`).
- **No item merging.** The analyzer lists every resolved item on its own;
  items with equal names are not merged.
- **Renormalisation happens once per top-level table.** The analyzer divides
  by the possible-item count only for the table it analyses, not at each `OR`
  table met along a reference chain.
- **Loot buckets are shaped as the parser builds them.** `src/Loot.ts` declares
  `LootBucket` with `Tags`/`Item`/`Quantity` fields. The parser builds, and the
  analyzer reads, a bucket with `Name`, `MatchOne` and `Items`. The model uses
  the shape the code uses.
- **Three record shapes come from their use.** `src/Loot.ts` declares no
  `Conditions`, `Levels` or `Fishing` type. The model builds them from the way
  the parser fills them and the analyzer reads them.

## Model

| member | source | states |
|---|---|---|
| `LootAnalyzer.Analyzer.constructor` | src/Analyzer.ts:92-95 | stores the data set and the bucket threshold; neither lookup table is built yet |
| `LootAnalyzer.Analyzer.Analyze` | src/Analyzer.ts:100-104 | builds the lookups, then returns `Analysis` of the data set, with a missing context read as the empty one |
| `LootAnalyzer.Analyzer.BuildLookupTables` | src/Analyzer.ts:109-125 | afterwards both lookups exist and index their lists, the last entry per id or name winning; a lookup that already existed is left unchanged |
| `LootAnalyzer.Analyzer.AnalyzeLootTables` | src/Analyzer.ts:131-152 | one analysed table per loot table, in source order, equal to `Analysis` |
| `LootAnalyzer.Analyzer.AnalyzeLootTable` | src/Analyzer.ts:134-149 | copies the table settings (`Multiple` exactly when `AndOr` is `AND`); its items are dereferenced, then filtered, then renormalised |
| `LootAnalyzer.Analyzer.DereferenceItems` | src/Analyzer.ts:145-147 | dereferencing the items one after another gives `DereferenceAll` with base quantity 1 and base probability 1 |
| `LootAnalyzer.Analyzer.FilterItems` | src/Analyzer.ts:148 | returns the items the context filter keeps, in order |
| `LootAnalyzer.Analyzer.DereferenceItem` | src/Analyzer.ts:164-227 | the accumulator grows by exactly the resolved items of one table item, in every branch: known table reference, expanded bucket, bucket placeholder, literal or unknown reference |
| `LootAnalyzer.Analysis` | src/Analyzer.ts:131-152 | one analysed table per loot table |
| `LootAnalyzer.AnalysisKeepsTableSettings` | src/Analyzer.ts:134-142 | every analysed table has the settings of its source table: id, `Multiple` iff `AND`, gear-score bonus, high-water-mark multiplier, luck safety, level gear score |
| `LootAnalyzer.LookupsOfRollsNonNegative` | src/Analyzer.ts:109-125 | when every table item has a non-negative threshold, so does every table in the lookup |
| `LootAnalyzer.KeptItemsInUnitRange` | src/Analyzer.ts:148 | filtering keeps probabilities within [0, 1] |
| `LootAnalyzer.AnalyzedProbabilitiesInUnitRange` | src/Analyzer.ts:288 | with non-negative thresholds, every probability of every analysed table lies within [0, 1] |
| `LootAnalyzer.SingleChoiceTablesRenormalized` | src/Analyzer.ts:307-315 | in an `OR` table with a possible item, every kept item's probability is divided by the number of possible kept items, and impossible items stay at 0 |
| `LootAnalyzer.MultipleTablesNotRenormalized` | src/Analyzer.ts:308 | an `AND` table's items are the kept resolved items, unchanged |
| `LootAnalyzer.EmptyContextAnalysesAllItems` | src/Analyzer.ts:234-264 | with the empty context every resolved item is kept, so a table's items are its renormalised resolved items |
| `Probabilities.CalculateItemProbability` | src/Analyzer.ts:290-300 | a threshold above a positive max roll gives 0, otherwise `1 - threshold/maxRoll`; without a positive max roll the result is 1 exactly for threshold 0 and 0 otherwise; a non-negative threshold gives a value in [0, 1] |
| `Probabilities.ProbabilityNonIncreasing` | src/Analyzer.ts:290-300 | on a table with a positive max roll, a higher threshold never gives a higher probability |
| `Probabilities.MultiplyRange` | src/Analyzer.ts:323-335 | non-negative ranges times non-negative factors stay non-negative; single-number ranges times single factors stay single |
| `Probabilities.MultiplyByOne` | src/Analyzer.ts:323-335 | the default base 1, as a number or as the range {1,1}, leaves a range unchanged |
| `Probabilities.PossibleItemCount` | src/Analyzer.ts:310 | the number of items with positive probability is at most the number of items |
| `Probabilities.AdaptMultiProbabilities` | src/Analyzer.ts:307-315 | in place, the array becomes `Renormalized` of its old contents |
| `Probabilities.RenormalizedShape` | src/Analyzer.ts:307-315 | renormalising changes only probabilities, keeps the length, and changes nothing in an `AND` table |
| `Probabilities.RenormalizedDivides` | src/Analyzer.ts:310-313 | with a possible item, each probability of an `OR` table is divided by the number of possible items; 0 stays 0 |
| `Probabilities.DividedSum` | src/Analyzer.ts:311-313 | dividing every probability by a count divides their sum by that count |
| `Probabilities.RenormalizedSum` | src/Analyzer.ts:307-315 | the renormalised sum times the possible-item count is the original sum |
| `Probabilities.ZeroOrOneSum` | src/Analyzer.ts:310 | when every probability is 0 or 1, their sum is the possible-item count |
| `Probabilities.SingleChoiceSumsToOne` | src/Analyzer.ts:307-315 | an `OR` table whose items are certain or impossible, with at least one certain, sums to 1 after renormalisation |
| `Probabilities.RenormalizedInUnitRange` | src/Analyzer.ts:307-315 | renormalising keeps probabilities within [0, 1] |
| `Probabilities.AdaptedAsWritten` | src/Analyzer.ts:307-315 | the probabilities as the code computes them, dividing even by a count of 0; one per item |
| `Probabilities.AsWrittenImpossibleItemIsNotFinite` | src/Analyzer.ts:310-313 | an `OR` table whose only item has probability 0 gets a non-finite probability as written |
| `Probabilities.RenormalizedAgreesWithAsWritten` | src/Analyzer.ts:307-315 | the corrected renormalisation equals the code wherever the code gives a finite number, and otherwise leaves the item unchanged |
| `ContextFilter.ConditionFailed` | src/Analyzer.ts:271-281 | absent on either side never fails; a range check reports true exactly when the value lies within the bounds; a scalar check of like kind reports true exactly on equality |
| `ContextFilter.ContextNames` | src/Analyzer.ts:251 | at most the four names: enemy name and type, location name and type |
| `ContextFilter.IndexOf` | src/Analyzer.ts:254 | -1 exactly when the name is absent; otherwise the first index holding it |
| `ContextFilter.SpliceRemoves` | src/Analyzer.ts:256 | removing the entry at an index removes exactly one occurrence of it from the multiset |
| `ContextFilter.ConsumeNames` | src/Analyzer.ts:253-258 | the names left after the loop are the multiset difference of the context names and the item's `Named` tags |
| `ContextFilter.FilterByContext` | src/Analyzer.ts:234-264 | keeps an item exactly when none of the five checks fails and, when an enemy or location is given, every defined context name is matched by a distinct `Named` tag |
| `ContextFilter.KeptItems` | src/Analyzer.ts:148 | every kept item is an eligible input item, and every eligible input item is kept |
| `ContextFilter.KeptItemsConcat` | src/Analyzer.ts:148 | filtering distributes over concatenation, so order is kept |
| `ContextFilter.EmptyContextKeepsAll` | src/Analyzer.ts:234-264 | the empty context keeps every item |
| `ContextFilter.CharacterLevelInsideRangeRejects` | src/Analyzer.ts:241-243 | a character level inside the item's character range drops the item; one outside it keeps an otherwise unconditioned item |
| `ContextFilter.UntaggedItemsNeedNoNames` | src/Analyzer.ts:250-262 | with an enemy or location given, an item with no `Named` tags passes the named rule exactly when no context name is defined |
| `Dereference.IndexBy` | src/Analyzer.ts:113-115 | every indexed entry is from the list under its own key, and every key of the list is indexed |
| `Dereference.IndexByLastWins` | src/Analyzer.ts:113-115 | a key is indexed with the last list entry carrying it |
| `Dereference.BucketLeaves` | src/Analyzer.ts:186-199 | an expanded bucket gives one item per bucket item |
| `Dereference.BucketLeavesShare` | src/Analyzer.ts:186-199 | each expanded item has the bucket item's name and conditions, the product quantity, and the full probability (MatchOne) or an equal share of it |
| `Dereference.LiteralItemIsOneLeaf` | src/Analyzer.ts:214-225 | a non-reference or unknown reference gives one item with its own name, quantity, conditions and gear score, and the scaled table probability |
| `Dereference.TableReferenceExpands` | src/Analyzer.ts:170-178 | a known table reference resolves to the items of the referenced table, with this item's quantity and probability as the new base |
| `Dereference.BucketReferenceExpands` | src/Analyzer.ts:180-199 | a known bucket within the threshold resolves to its expanded items |
| `Dereference.BucketReferencePlaceholder` | src/Analyzer.ts:200-209 | a known bucket above the threshold, or with no threshold, resolves to one "Pick from loot bucket: " item |
| `Dereference.PlainItemsOneLeafEach` | src/Analyzer.ts:214-225 | a table with no known references resolves to one item per source item, with its name, quantity and table probability |
| `Dereference.DereferencedInUnitRange` | src/Analyzer.ts:164-227 | with non-negative thresholds and a base probability within [0, 1], every resolved probability lies within [0, 1] |
| `Dereference.DereferenceAllInUnitRange` | src/Analyzer.ts:145-147 | the same for every item of a list |
| `Dereference.BucketLeavesScale` | src/Analyzer.ts:192 | scaling the reference's probability scales every expanded item's probability by the same factor |
| `Dereference.DereferencedScales` | src/Analyzer.ts:164-227 | resolved probabilities are linear in the base probability: scaling the base scales each of them |
| `Dereference.DereferenceAllScales` | src/Analyzer.ts:175-177 | the same for a whole list of items |
| `RowDecoding.ParseBoolean` | src/LootParser.ts:275-281 | true exactly for the text "TRUE" |
| `RowDecoding.ParseRange` | src/LootParser.ts:289-314 | a falsy cell gives {0,0}; a number n gives {n, n}; a dash-free text gives a single-number range |
| `RowDecoding.ParseRangeOfDashFree` | src/LootParser.ts:302-307 | a non-empty text without a dash gives `parseInt` of the text at both ends |
| `RowDecoding.ParseRangeOfDashed` | src/LootParser.ts:308-313 | a text `low-high` with no dash in `low` (so split at its first dash) gives {parseInt(low), parseInt(high)} |
| `RowDecoding.ParseRangeOfFormatted` | src/LootParser.ts:289-314 | reading back a range written as "n" or "low-high" (low non-negative) gives the range |
| `RowDecoding.ParseRangeOfSingle` | src/LootParser.ts:302-307 | "n" reads as {n, n} |
| `RowDecoding.ParseRangeOfPair` | src/LootParser.ts:308-313 | "low-high" reads as {low, high} |
| `RowDecoding.ParseList` | src/LootParser.ts:321-329 | entries are non-empty and trimmed; a missing cell gives no entries |
| `RowDecoding.ParseListOfBlank` | src/LootParser.ts:325-327 | a blank text gives no entries |
| `RowDecoding.ParseListOfJoined` | src/LootParser.ts:321-329 | joining trimmed, comma-free entries with commas and parsing gives the entries back |
| `RowDecoding.ParseListOfTrimmedTo` | src/LootParser.ts:321-329 | comma-free pieces that each trim to a non-empty entry, joined with commas, parse to those entries |
| `RowDecoding.ParseListOfPadded` | src/LootParser.ts:321-329 | entries padded with white space on either side and joined with commas parse back to the entries |
| `RowDecoding.RemoveSuffix` | src/LootParser.ts:171-173 | for a name ending in the suffix, the result followed by the suffix is the name |
| `RowDecoding.RemoveSuffixOfAppended` | src/LootParser.ts:171-173 | removing a suffix that was appended gives back the base name |
| `RowDecoding.ParseConditions` | src/LootParser.ts:337-376 | the token loop computes `TableConditions` |
| `RowDecoding.ConditionsOfTokensSnoc` | src/LootParser.ts:345-374 | each condition token acts according to its kind: a level kind sets the probability type, Elite/Common the elite flag, GlobalMod the global modifier, Fresh/Salt the water; ignored tokens do nothing, and any other token is appended to `Named` |
| `RowDecoding.ParseTags` | src/LootParser.ts:382-402 | the tag loop computes `TagConditions` |
| `RowDecoding.TagConditionsSnoc` | src/LootParser.ts:387-399 | one more tag sets the content level (MinContLevel) or the character level (Level) from its value, and any other tag is appended to the names |
| `RowDecoding.TagConditionsMeaning` | src/LootParser.ts:382-402 | tags set only the character and content levels and the names: a level is absent exactly when no tag has its name, and `Named` holds exactly the other tags |
| `RowDecoding.LastTagNamedFinds` | src/LootParser.ts:387-395 | the tag deciding a level has that name, and one is found exactly when some tag has the name |
| `RowDecoding.NameTagsMembers` | src/LootParser.ts:396-398 | the name tags are exactly the tags that are not level tags |
| `RowDecoding.LevelTagOfFormatted` | src/LootParser.ts:390-395 | a tag "Level:r" or "MinContLevel:r" gives the range r as written |
| `JsText.IndexOfChar` | src/LootParser.ts:302 | -1 exactly when the character is absent; otherwise its first index |
| `JsText.Split` | src/LootParser.ts:328 | at least one piece, none containing the separator |
| `JsText.SplitJoin` | src/LootParser.ts:328 | splitting a join of separator-free pieces gives the pieces back |
| `JsText.Trim` | src/LootParser.ts:325 | the result is trimmed, and trimmed text is unchanged |
| `JsText.TrimStartDropsWhitespace` | src/LootParser.ts:325 | what removing leading white space removes is white space |
| `JsText.TrimEndDropsWhitespace` | src/LootParser.ts:325 | what removing trailing white space removes is white space |
| `JsText.TrimKeepsInfix` | src/LootParser.ts:325 | the trimmed text is a contiguous part of the text, with only white space before and after it |
| `JsText.TrimOfPadded` | src/LootParser.ts:325 | trimming white space around a trimmed text gives that text |
| `JsText.ParseIntOfIntToString` | src/LootParser.ts:305 | `parseInt` reads back a printed integer |
| `LootParsing.RunLength` | src/LootParser.ts:253 | the fields 1..n of a prefix are truthy and field n+1 is not |
| `LootParsing.RunLengthExact` | src/LootParser.ts:253 | the run length is the only count with that property |
| `LootParsing.ParseMainEntry` | src/LootParser.ts:239-266 | the item loop computes `MainEntry` |
| `LootParsing.MainEntryItems` | src/LootParser.ts:239-266 | a main row gives one item per leading truthy `Item<i>` field, with quantity {0,0}, threshold 0, the row's conditions, and no max roll yet |
| `LootParsing.QuantityAmended` | src/LootParser.ts:181-191 | a missing main table is reported as such, and an amended table keeps its item count |
| `LootParsing.ParseQuantityEntry` | src/LootParser.ts:181-191 | the item loop computes `QuantityAmended` |
| `LootParsing.QuantityAmendedItems` | src/LootParser.ts:187-190 | a quantity row sets the quantity of each of its leading items from its field and changes nothing else |
| `LootParsing.WithLevel` | src/LootParser.ts:216-226 | replacing a level keeps the probability type |
| `LootParsing.ProbabilityAmended` | src/LootParser.ts:199-231 | a missing main table is reported as such |
| `LootParsing.ParseProbabilityEntry` | src/LootParser.ts:199-231 | the item loop computes `ProbabilityAmended` |
| `LootParsing.ProbabilityAmendedRolls` | src/LootParser.ts:205-229 | without a probability type, the row sets the max roll and each leading item's threshold from `parseInt` of its field, and nothing else |
| `LootParsing.ProbabilityAmendedLevels` | src/LootParser.ts:212-226 | with a level probability type, the leading items get threshold 0, and the level of that kind becomes [last value, MAX_SAFE_INTEGER] |
| `LootParsing.LoadRow` | src/LootParser.ts:77-87 | one row keeps the state consistent and never reorders known tables |
| `LootParsing.LoadRows` | src/LootParser.ts:77-87 | the loop over rows ends in a consistent state |
| `LootParsing.Finalize` | src/LootParser.ts:239-266 | a finished table keeps the draft's id and settings, has max roll 0 when none was set, and has one item per draft item with its name, gear score, quantity, threshold and perks, carrying the table's conditions |
| `LootParsing.Finalized` | src/LootParser.ts:90 | one table per id, in order of first insertion |
| `LootParsing.LoadRowsKeepsError` | src/LootParser.ts:77-87 | once a row fails, the whole sheet fails with that row's error |
| `LootParsing.ParseLootTables` | src/LootParser.ts:68-91 | the row loop computes `TablesOf(LoadRows(...))` |
| `LootParsing.ParsedTableIdsDistinct` | src/LootParser.ts:74-90 | the parsed tables have pairwise distinct ids |
| `LootParsing.ParsedTableItemsShareConditions` | src/LootParser.ts:251-262 | all the items of a parsed table carry the same conditions |
| `LootParsing.MainRowStoresTable` | src/LootParser.ts:84-86 | a main row creates or replaces the table under its id and leaves the others alone |
| `LootParsing.MissingMainTableIgnored` | src/LootParser.ts:182-185 | a `_Qty` or `_Probs` row without its main table changes nothing |
| `LootParsing.QuantityRowAmendsBaseTable` | src/LootParser.ts:78-80 | a `_Qty` row amends the table named by its id without the suffix |
| `LootParsing.BucketDefinitions` | src/LootParser.ts:137-155 | at most 1000 buckets are defined |
| `LootParsing.ParseLootBucketDefinitions` | src/LootParser.ts:137-155 | the definition loop computes `BucketDefinitions`: leading truthy `LootBucket<i>` fields, at most 1000, each with its MatchOne flag and no items |
| `LootParsing.DefinitionRow` | src/LootParser.ts:105-110 | the found row is a `FIRSTROW` row of the sheet; none is found only when there is no such row |
| `LootParsing.DefinitionRowAt` | src/LootParser.ts:105-110 | the first `FIRSTROW` row is the one used |
| `LootParsing.FindBucketDefinitions` | src/LootParser.ts:104-110 | the search loop computes `Definitions` |
| `LootParsing.BucketItemsFrom` | src/LootParser.ts:112-125 | a bucket gets at most one item per row |
| `LootParsing.AssembledBuckets` | src/LootParser.ts:99-129 | at most 1000 buckets result |
| `LootParsing.BucketItemsStep` | src/LootParser.ts:113-124 | a further row adds its item for bucket i exactly when its `Quantity<i>` is truthy |
| `LootParsing.RowItemsAddedEach` | src/LootParser.ts:113-124 | one row changes bucket i only by appending its own item i, when that quantity is truthy |
| `LootParsing.AddRowItems` | src/LootParser.ts:113-124 | the inner loop, with its `continue` on a falsy quantity, computes `RowItemsAdded` |
| `LootParsing.ParseBucketItem` | src/LootParser.ts:119-123 | item i of a row has the name `Item<i>`, the range `Quantity<i>` and the conditions of the tags in `Tags<i>` |
| `LootParsing.ParseLootBuckets` | src/LootParser.ts:99-129 | the two loops compute `AssembledBuckets`: every defined bucket filled from all rows |
| `LootParsing.BucketItemsConcat` | src/LootParser.ts:112-125 | rows add items to a bucket in row order |
| `LootParsing.RowItemInBucket` | src/LootParser.ts:114-123 | every row with a truthy `Quantity<i>` contributes its item to bucket i |
| `LootParsing.BucketItemFromRow` | src/LootParser.ts:114-123 | every item of bucket i comes from a row with a truthy `Quantity<i>` |
| `LootParsing.NoDefinitionRowNoBuckets` | src/LootParser.ts:104-110 | a sheet without a `FIRSTROW` row has no buckets |

## Findings

| source | as written | input that shows it | evidently intended | confidence | as-written member | corrected member |
|---|---|---|---|---|---|---|
| src/Analyzer.ts:310-313 | a single-choice table divides every probability by the count of items with positive probability, even when that count is 0 | an `OR` table whose only item has threshold above the max roll (probability 0): 0 / 0 gives NaN | when no item is possible, leave the probabilities unchanged (at 0) instead of dividing | not executed | `Probabilities.AsWrittenImpossibleItemIsNotFinite` | `Probabilities.RenormalizedAgreesWithAsWritten` |

The rest of the model uses the corrected `Probabilities.Renormalized`.

## Left out

- **Reading files.** `parseLootTables` and `parseLootBuckets` take decoded rows,
  not file paths. JSON parsing, `readFileSync` and the console messages are
  left out.
  - `DataLoader.ts`, `Formatter.ts`, `index.ts` and the command line are not
    part of this model.
- **Cell values.** A cell is text or an integer (`RawValue`). Fractional
  numbers, booleans and other JSON kinds in cells are not modelled.
  - `Number.parseInt` is modelled as decimal only: leading white space, an
    optional sign, then a leading digit run. A `0x` prefix, which JavaScript
    reads as hexadecimal, reads as 0. Text that gives NaN in JavaScript (no
    leading digit) reads as 0.
  - A numeric cell used as a name is spelled in decimal.
- **Two type errors.** Two kinds of numeric cell make the JavaScript code
  throw a TypeError. The model gives each a normal result instead:
  - a numeric, non-zero `Tags<i>` cell of a bucket row: `list.trim()` throws
    (`src/LootParser.ts:325`). The model reads the cell as missing, so the
    item gets no tag conditions.
  - a numeric `Item<i>` name of a table row: `item.Name.startsWith` throws
    (`src/Analyzer.ts:170`). The model spells the number in decimal and
    treats the item as a literal.
- **Table order.** `Object.values(loadedTables)` returns tables in insertion
  order of their ids. The model uses that order. The JavaScript rule that
  integer-like keys come first is not modelled.
- **Field and key names.** An object field is looked up by key. Like the cells,
  the lookups of `Analyzer.ts` are maps, so inherited prototype keys such as
  `constructor` are not modelled.
- **Shared objects.** The parser gives every item of a table the same
  `Conditions` object, which the `_Probs` row mutates. The model holds the
  conditions once per table draft and copies them onto each item when the
  table is finished (`LootParsing.Finalize`). The in-place mutation is
  modelled as returned values:
  - the parser's `loadedTables` entries;
  - the analyzer's `Items` lists.
- **Out-of-range rows.** A `_Qty` or `_Probs` row with more items than its main
  table raises a TypeError in JavaScript. The model reports it as
  `RowError(rowId, index)` and stops.
  - A `_Probs` row whose MaxRoll was never set leaves `undefined`, which the
    analyzer treats like 0. The model finishes it as 0 (`Finalize`).
- **Reference depth.** The source recurses into table references without a
  bound, so a cycle overflows the stack. `Dereference.Dereferenced` carries a
  fuel bound: a known table reference met with no fuel left contributes no
  items.
- LootAnalyzer.Analyzer.Analyze: follows references down to depth
  `|lootTables|`; the model does not prove that an acyclic reference graph
  never reaches that bound, so this is weaker than unbounded recursion.
- **Loose equality.** `conditionFailed` compares scalars with `==`. The model
  compares a boolean with a number by reading true as 1
  (`ContextFilter.AsNumber`). No other coercion is modelled.
- ContextFilter.ConditionFailed: for a flag compared with a number, the
  numeric reading is in its body only, not in its contract.
- **Unused features.** Luck bonuses are not modelled, as a to-do in
  `analyze`. The unused `fromNamed` parameter of `dereferenceItem` is dropped.
- **Bucket threshold.** The threshold is an optional integer. A non-integer
  threshold is not modelled.
- **Floating point.** Probabilities are exact reals, not IEEE doubles.
  - Integer quantities and thresholds are unbounded.
  - Rounding, and a result above `Number.MAX_SAFE_INTEGER`, are not modelled.
- RowDecoding.TagConditions: states its meaning in the lemma
  `TagConditionsMeaning`, not in its own contract; likewise
  `RowDecoding.LastTagNamed` (`LastTagNamedFinds`) and `RowDecoding.NameTags`
  (`NameTagsMembers`).
