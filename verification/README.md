# eve-harvest in Dafny

eve-harvest is a browser front end that prices EVE Online ores. It reads
a static ore catalogue and fetches buy/sell market statistics for every ore
and mineral type. For each ore it derives a valuation record:

- the ISK per m³ of the raw or compressed ore;
- the raw unit price;
- the ISK per m³ of the minerals the ore refines into, at the standard (70 %)
  and the perfect (89.34 %) refining efficiency.

Those records are shown in a table. The user narrows it by asteroid type and
by four filter maps: ore group, bonus, compression and availability. Each
filter map goes from a key to an on/off flag, and each key has a toggle button.
A build-time script produces the catalogue from the game's static data export.

This project models that pipeline as pure Dafny functions over immutable data,
with `real` for prices. Each source file is one module:

| module | source file |
|---|---|
| `Data` | `src/data.ts`: the ore index, primary ores, bonuses, the two price formulas, `dataFactory` |
| `LegacyData` | `src/data.tsx`: the initial per-primary-ore filter state |
| `App` | `src/index.tsx`: two-decimal prices, the request list, the rows, the loading/error page |
| `Hooks` | `src/hooks.ts`: the initial filter maps, the price-id closure and its URL, `usePrices` |
| `OreTable` | `src/components/ore-table.tsx`: asteroid-type selection, the three filter projections, the row filter, the comparator, the render choice |
| `FilterPanel` | `src/components/filter.tsx`: the toggle buttons |
| `LegacyFilter` | `src/filter.tsx`: the per-primary-ore toggle bar |
| `SortFunctions` | `src/sortFunctions.ts`: the comparators |
| `GenerateOres` | `generate-ores.mjs`: catalogue enrichment |

Helper modules provide what the JavaScript runtime and lodash supply:

| helper module | stands in for |
|---|---|
| `Collections` | `filter`, `flatMap`, `uniq`, `uniqBy` |
| `Sorting` | `sortBy` over a key that is a number or a string |
| `Text` | number-to-string, `parseInt`, `join`, `split` |
| `MineralTable` | an object with integer keys, which JavaScript enumerates in ascending key order |
| `FilterMaps` | a filter map where a missing key reads as `undefined`, i.e. off |
| `Types` | the record shapes |

Inputs that come from outside the program are parameters:

- the catalogue (`ores.json`);
- the fetched price map, or its absence;
- the fetch error flag;
- the selected asteroid type;
- the persisted filter maps;
- the database statements of the generator, as lookup functions.

Three behaviours of the code are worth stating on their own:

- **A filter key missing from its map excludes the row.** The lookup gives
  `undefined`, which is falsy (`src/components/ore-table.tsx:222-226`).
  Toggling a missing key therefore turns it on (`src/components/filter.tsx:133`).
  See `OreTable.Visible` and `FilterMaps.Toggle`.
- **The failure view is shown whenever the error flag is set**, even with
  data present (`src/components/ore-table.tsx:138-139`, `src/index.tsx:200-201`).
  See `OreTable.Table` and `App.Page`.
- **The mineral price uses the primary ore's numbers.** Its refine amount and
  volume come from the primary ore, not the variant (`src/data.ts:38-45`).

## Model

| member | source | states |
|---|---|---|
| Data.IndexById | src/data.ts:5 | the id map has exactly the catalogue's ids as keys and maps each id to a record carrying that id |
| Data.IndexByIdSound | src/data.ts:5 | every record the id map returns is a catalogue record |
| Data.IndexByIdLastWins | src/data.tsx:13-15 | when an id occurs several times, the map holds its last occurrence (a `Map` built from pairs keeps the last value) |
| Data.GetOrePrice | src/data.ts:16-31 | the per-m³ price is never negative; it is exactly 0 when the percentile is ≤ 0; otherwise price × compressAmount × primary volume gives back the percentile, so the price uses the primary ore's volume |
| Data.CompressionNormalization | src/data.ts:24-26 | two variants of one primary ore whose percentiles per unit of compression agree get the same per-m³ price |
| Data.SumMineralTermsFactors | src/data.ts:39-46 | the sum of the per-mineral terms price × quantity / refineAmount / volume equals the raw value sum divided once by refineAmount and volume |
| Data.RawMineralValueNonNegative | src/data.ts:39-46 | with non-negative quantities and prices the mineral value sum is non-negative |
| Data.GetMineralsPrice | src/data.ts:33-47 | the mineral price is Σ price × quantity over the mineral entries, divided by the primary ore's refineAmount and volume; an ore with no minerals prices at 0 |
| Data.ValuateSide | src/data.ts:57-80 | on one market side, individual is the raw percentile; perm3 is 0 when the percentile is ≤ 0 and otherwise perm3 × compressAmount × primary volume gives back the percentile; minerals and perfectMinerals are the mineral price × 0.7 and × 0.8934 |
| Data.Valuate | src/data.ts:55-82 | a record has the ore's id, name, bonus, color and primaryOreId and the primary ore's name as group; on each side, perm3 is the ore price, individual is the raw percentile, minerals = mineral price × 0.7 and perfectMinerals = mineral price × 0.8934; compressed holds iff compressAmount = 100 |
| Data.DataFactory | src/data.ts:49-85 | absent prices give an absent result, never an empty list; otherwise there is one record per catalogue ore with bonus < 0.15, in catalogue order, each valued as in `Data.Valuate` |
| Data.PerfectMineralsDominate | src/data.ts:72-79 | with non-negative prices and quantities, 0 ≤ minerals ≤ perfectMinerals on each side |
| Data.VeldsparExample | src/data.ts:16-47 | a worked record: a 0.1 m³ ore at buy percentile 10 and sell percentile 12, refining a batch of 100 into 400 units of a mineral at buy percentile 5, is worth 100 ISK/m³ to buy, 120 ISK/m³ to sell, and 140 ISK/m³ in minerals at the standard rate |
| Data.PrimaryIds | src/data.tsx:17-20 | the deduplicated primary ids contain each primaryOreId of the catalogue exactly once and nothing else |
| Data.PrimaryIdsIndexed | src/data.ts:7-10 | every primary id resolves in the id map when the catalogue contains its primaries |
| Data.PrimaryOres | src/data.ts:7-10 | the primary ores are ordered by name |
| Data.PrimaryOresDistinct | src/data.ts:7-10 | no primary ore appears twice |
| Data.PrimaryOresComplete | src/data.ts:7-10 | the primary record of every catalogue ore is listed |
| Data.PrimaryOresSound | src/data.ts:7-10 | every listed ore is the id map's record for its id and is the primary of some catalogue ore |
| Data.OreBonuses | src/data.ts:12-14 | the distinct bonuses are sorted numerically |
| Data.OreBonusesIncreasing | src/data.ts:12-14 | the bonuses are strictly increasing, so each occurs once |
| Data.OreBonusesExact | src/data.ts:12-14 | a value is listed iff some catalogue ore has it as bonus |
| LegacyData.InitialState | src/data.tsx:154-156 | every key of the initial state is on |
| LegacyData.InitialStateKeys | src/data.tsx:154-156 | the initial state's keys are exactly the decimal ids of the catalogue's primary ores |
| App.RoundHalfAway | src/index.tsx:92-96 | the integer nearest to a value, at most one half away, with a tie going away from zero (up for a non-negative value, down for a negative one); never negative for a non-negative value |
| App.ToFixed2 | src/index.tsx:92-96 | the two-decimal rounding is within 0.005 of its input, with a tie going away from zero as `toFixed` does; it has at most two decimals and keeps non-negative values non-negative |
| App.ToFixed2OfCents | src/index.tsx:92-96 | a value that already has two decimals is left unchanged |
| App.ToFixed2Idempotent | src/index.tsx:92-96 | rounding twice is rounding once |
| App.GetOrePrice | src/index.tsx:89-100 | the page's ore price is 0 for a percentile ≤ 0 and otherwise the per-m³ price of `Data.GetOrePrice` rounded to two decimals, within 0.005 of it |
| App.GetMineralsPrice | src/index.tsx:102-119 | the page's mineral price is the unrounded mineral sum times `refinePercent`, rounded to two decimals |
| App.RowOf | src/index.tsx:205-233 | a row carries the ore's id and name and its bonus times 100 |
| App.Rows | src/index.tsx:203-234 | there is one row per catalogue ore with bonus < 0.15, in catalogue order |
| App.RowsMatchDataFactory | src/index.tsx:203-234 | every figure of a row is the two-decimal rounding of the matching figure of `dataFactory`'s record for the same ore |
| App.RequestIds | src/index.tsx:191 | the requested ids are all ore ids followed by the mineral list's ids |
| App.PriceRequest | src/index.tsx:192-194 | reading the comma-joined list back yields the ore ids and then the mineral ids, in order |
| App.Page | src/index.tsx:200-234 | an error shows the failure, otherwise a missing price map shows loading, otherwise the rows |
| Hooks.InitialFilters | src/hooks.ts:12-42 | every initial filter map holds only `true`; the compression map is exactly {"true": true, "false": true} |
| Hooks.InitialOreKeys | src/hooks.ts:12-14 | the initial group map's keys are exactly the rows' group names |
| Hooks.InitialBonusKeys | src/hooks.ts:21-23 | the initial bonus map's keys are exactly the rows' bonus labels |
| Hooks.InitialAvailabilityKeys | src/hooks.ts:40-42 | the initial availability map's keys are exactly the tags that occur in the rows |
| Hooks.GroupNamesSound | src/hooks.ts:12-14 | every group name listed is the group of some row |
| Hooks.GroupNamesComplete | src/hooks.ts:12-14 | the group of every row is listed |
| Hooks.GroupInitiallyEnabled | src/hooks.ts:12-14 | a row's group is on in the initial group map |
| Hooks.BonusInitiallyEnabled | src/hooks.ts:21-23 | a row's bonus is on in the initial bonus map |
| Hooks.AvailabilityInitiallyEnabled | src/hooks.ts:40-42 | every tag of a row is on in the initial availability map |
| Hooks.InitiallyShown | src/hooks.ts:12-42 | under the initial filters, every row with at least one availability tag passes the row filter |
| Hooks.DefaultFiltersShowEveryRow | src/hooks.ts:12-42 | under the initial filters, the table shows exactly the rows of the selected type that have at least one availability tag |
| Hooks.MineralIds | src/hooks.ts:52-54 | the deduplicated mineral ids contain every mineral key of every ore, each once, and nothing that is not some ore's mineral key |
| Hooks.AllItems | src/hooks.ts:51-55 | the id list is every ore id in catalogue order followed by the deduplicated mineral ids |
| Hooks.AllItemsCover | src/hooks.ts:51-55 | every ore id and every mineral id of every ore is in the list |
| Hooks.PriceClosure | src/hooks.ts:51-55 | a price map that answers every listed id prices every ore and every one of its minerals |
| Hooks.PriceUrl | src/hooks.ts:56-58 | reading the URL's type list back yields the id list in order; an empty catalogue gives an empty list |
| Hooks.PriceUrlCover | src/hooks.ts:56-58 | every ore id and mineral id can be read back from the URL's type list |
| Hooks.AnsweredRequestValuesAll | src/hooks.ts:60-68 | a price map that answers the request lets every ore of a physically sensible catalogue be valued |
| Hooks.UsePrices | src/hooks.ts:60-69 | the error is passed through; the data is absent exactly while no price map exists; otherwise it has one record per ore with bonus < 0.15, and record i is the valuation of the i-th such ore |
| OreTable.FilterByType | src/components/ore-table.tsx:141 | the selected rows are exactly the rows of the asteroid type, in their order, each as many times as it occurs in the data |
| OreTable.TypePartition | src/components/ore-table.tsx:141 | every row is selected under its own type and under no other type |
| OreTable.FilterGroups | src/components/ore-table.tsx:143-153 | the group list is sorted by name and no name occurs twice |
| OreTable.FilterGroupsCover | src/components/ore-table.tsx:143-153 | every row's group name is listed |
| OreTable.FilterGroupsFromFirstRow | src/components/ore-table.tsx:143-153 | each listed group takes its name, color and id from the first row with that name |
| OreTable.FilterBonuses | src/components/ore-table.tsx:155-165 | the bonus labels are sorted by the numeric-aware key and none occurs twice |
| OreTable.FilterBonusesExact | src/components/ore-table.tsx:155-165 | a label is listed iff some row carries it |
| OreTable.FilterBonusesNumericOrder | src/components/ore-table.tsx:155-165 | of any two offered labels that parse as integers, the one with the smaller value is offered first, under the model's total order for `sortBy` (which the source guarantees when every label is numeric) |
| OreTable.FilterAvailability | src/components/ore-table.tsx:167-175 | the availability tags are sorted by their key and none occurs twice |
| OreTable.FilterAvailabilityExact | src/components/ore-table.tsx:167-175 | a tag is listed iff some row carries it |
| OreTable.RegionKey | src/components/ore-table.tsx:170-171 | the key of "R" followed by a number is that number |
| OreTable.RegionsInNumericOrder | src/components/ore-table.tsx:167-175 | whichever of R4, R16 and R32 are offered appear in that order, R4 before R16 before R32, under the model's total order for `sortBy` (which the source guarantees only when no string tag is offered) |
| OreTable.Visible | src/components/ore-table.tsx:221-227 | a row is shown iff its group, bonus and compression keys are on and at least one of its tags is on, as many times as it occurs; a row without tags is never shown |
| OreTable.VisibleIsOneFilter | src/components/ore-table.tsx:221-227 | the four chained filters equal one filter by the combined predicate, so the shown rows keep their order |
| OreTable.NumericSort | src/components/ore-table.tsx:34-38 | the comparison is negative, zero or positive as the first row's figure is below, equal to or above the second's |
| OreTable.NumericSortAntisymmetric | src/components/ore-table.tsx:34-38 | swapping the rows negates the comparison |
| OreTable.Table | src/components/ore-table.tsx:138-227 | an error shows the failure even with data, missing data shows loading, and otherwise the table holds exactly the shown rows of the selected type, each as many times as it occurs in the data |
| FilterPanel.ToggleGroup | src/components/filter.tsx:130-134 | a group click flips that group's key, leaves the other group keys and the other three maps alone |
| FilterPanel.ToggleBonus | src/components/filter.tsx:148-152 | a bonus click flips only that bonus's key |
| FilterPanel.ToggleUncompressed | src/components/filter.tsx:162-167 | the uncompressed button flips only key "false" of the compression map |
| FilterPanel.ToggleCompressed | src/components/filter.tsx:173-177 | the compressed button flips only key "true" of the compression map |
| FilterPanel.ToggleAvailability | src/components/filter.tsx:188-192 | an availability click flips only that tag's key |
| FilterPanel.GroupButtons | src/components/filter.tsx:127-142 | one button per group, lit iff the group's key is on |
| FilterPanel.BonusButtons | src/components/filter.tsx:145-158 | one button per bonus, lit iff the bonus's key is on |
| FilterPanel.CompressionButtons | src/components/filter.tsx:161-182 | the uncompressed and compressed buttons, lit iff "false" and "true" are on |
| FilterPanel.AvailabilityButtons | src/components/filter.tsx:185-198 | one button per tag, lit iff the tag's key is on |
| FilterPanel.ToggleGroupHidesItsRows | src/components/filter.tsx:130-134 | switching off an enabled group removes all its rows from the table and changes no other row's visibility |
| FilterPanel.ToggleCompressedHidesCompressed | src/components/filter.tsx:173-177 | switching off an enabled "Compressed" leaves exactly the uncompressed rows that were shown |
| FilterPanel.ToggleGroupTwice | src/components/filter.tsx:130-134 | two clicks on a group button restore the filters |
| FilterMaps.Toggle | src/components/filter.tsx:133 | a toggle negates the key (a missing key becomes on), adds it if missing, and leaves every other key as it was |
| FilterMaps.ToggleTwice | src/filter.tsx:35-38 | toggling twice restores a present key and leaves a missing one off |
| FilterMaps.AllEnabled | src/hooks.ts:12-14 | merging `{[k]: true}` objects gives a map whose keys are exactly the given keys, all on |
| LegacyFilter.ToggleOre | src/filter.tsx:34-38 | a click flips the key of that ore's id and leaves every other key as it was |
| LegacyFilter.ToggleOreTwice | src/filter.tsx:35-38 | two clicks restore the state when the key was present |
| LegacyFilter.ToggleOreIsolated | src/filter.tsx:36-37 | a click on one ore never changes another ore's button |
| LegacyFilter.Buttons | src/filter.tsx:31-42 | one button per primary ore, in primary-ore order; button i carries the id and color of the i-th primary ore and is lit iff that ore's key is on (a missing key is off) |
| LegacyFilter.ButtonIdsDistinct | src/filter.tsx:31-42 | no two buttons carry the same id |
| LegacyFilter.ButtonIds | src/filter.tsx:31-42 | the buttons' ids are exactly the primary ore ids of the catalogue's records |
| SortFunctions.NumericSort | src/sortFunctions.ts:1 | the comparison is negative, zero or positive as `a[key]` is below, equal to or above `b[key]` |
| SortFunctions.NumericSortAntisymmetric | src/sortFunctions.ts:1 | swapping the arguments negates the comparison |
| SortFunctions.LocaleSort | src/sortFunctions.ts:3-4 | the comparison is the given string comparison of the two keys, so equal keys compare equal when that comparison is reflexive |
| SortFunctions.LocaleSortAntisymmetric | src/sortFunctions.ts:3-4 | with an antisymmetric string comparison, swapping the rows negates the result |
| GenerateOres.LookupGroup | generate-ores.mjs:13-166 | the group table lookup finds an entry with the requested id iff one exists |
| GenerateOres.LookupGroupDistinct | generate-ores.mjs:13-166 | with distinct ids, looking up an entry's id returns that entry |
| GenerateOres.LookupGroupTable | generate-ores.mjs:13-166 | looking up the id of any entry of the group table returns that entry, since the table's ids are distinct |
| GenerateOres.GroupIdsDistinct | generate-ores.mjs:13-166 | the nineteen group ids are distinct |
| GenerateOres.ExtractFrom | generate-ores.mjs:246 | every extracted item is a row of the query of a listed group and carries that group's id; every row of every listed group's query is extracted with that group's id |
| GenerateOres.ExtractFromSingle | generate-ores.mjs:246 | for a one-group table, the rows are that group's query rows in query order |
| GenerateOres.ExtractFromAppend | generate-ores.mjs:246 | `flatMap` goes group by group: extracting from two tables one after the other gives the first table's rows followed by the second's |
| GenerateOres.ExtractFromBlock | generate-ores.mjs:246 | the rows of the group at position k form one contiguous block, in query order, after the rows of all earlier groups and before those of all later ones |
| GenerateOres.Extract | generate-ores.mjs:246 | every extracted item is a row of the query of a group of the script's table and carries that group's id; every such row is extracted |
| GenerateOres.ExtractGroupByGroup | generate-ores.mjs:246 | the extraction follows the order of the group table: group k's rows form one block between the earlier and the later groups' rows |
| GenerateOres.BonusForOreType | generate-ores.mjs:251-265 | ore types 1, 2, 3 and 4 give bonuses 0, 0.05, 0.1 and 0.15 (that is, (type − 1) × 0.05), and any other type leaves the bonus unset |
| GenerateOres.TriglavianFix | generate-ores.mjs:269-273 | a bonus other than 0 is kept; a 0 bonus becomes 0.05 for "Abyssal " names, 0.1 for other "Hadal " names, and stays 0 otherwise |
| GenerateOres.BonusValues | generate-ores.mjs:251-273 | a corrected bonus is still 0, 0.05, 0.1 or 0.15 and never lower than the table value |
| GenerateOres.MineralsOf | generate-ores.mjs:275-278 | the minerals object has exactly the material ids of the rows as keys |
| GenerateOres.MineralsOfLastWins | generate-ores.mjs:275-278 | a material id reads the quantity of the last row naming it |
| GenerateOres.CompressAmount | generate-ores.mjs:282-284 | the compress amount is never 0; it is the looked-up ratio when the source id and the ratio are both present and non-zero, and 1 otherwise (a source id of 0 gives 1) |
| GenerateOres.CompressAmountBounds | generate-ores.mjs:282-284 | with ratios ≥ 1 in the database the compress amount is ≥ 1, and with positive ratios it is positive |
| GenerateOres.Enrich | generate-ores.mjs:248-285 | the color and availability come from the group's entry; the bonus, minerals, compression source and compress amount come from the lookups of the ore's id |
| GenerateOres.EnrichAll | generate-ores.mjs:248-285 | every extracted ore is enriched, in order |
| GenerateOres.Generate | generate-ores.mjs:287-294 | the written list is exactly the enriched ores with a set bonus below 0.15, in their order, each as many times as it was enriched |
| GenerateOres.WrittenBonuses | generate-ores.mjs:290 | every written ore has bonus 0, 0.05 or 0.1; ores with bonus 0.15 or an unknown type are dropped |
| GenerateOres.WrittenGroupFields | generate-ores.mjs:249-280 | every written ore carries the color and availability of the group entry with its group id |
| Collections.FilterFilter | src/components/ore-table.tsx:221-227 | two chained filters equal one filter by the conjunction of their predicates |
| Collections.FilterMultiplicity | src/components/ore-table.tsx:141 | `filter` keeps each element that passes as many times as it occurs and drops every other element |
| Collections.UniqByKeepsFirst | src/components/ore-table.tsx:144-151 | `uniqBy` keeps, for each key, the first element carrying it |
| Collections.UniqByCovers | src/components/ore-table.tsx:144-151 | every key of the input is represented after `uniqBy` |
| Collections.Uniq | src/hooks.ts:52 | `uniq` keeps each distinct value once, nothing else, and in order of first appearance: of two kept values, the one appearing first in the input comes first |
| Collections.UniqByOrder | src/hooks.ts:52 | `uniqBy` keeps its elements in the order in which their keys first appear in the input |
| Sorting.SortBy | src/components/ore-table.tsx:143-175 | `sortBy` returns a permutation of its input ordered by the key |
| Sorting.SortByDistinctBy | src/components/ore-table.tsx:143-153 | sorting keeps a list free of duplicate names |
| MineralTable.PutGet | generate-ores.mjs:276 | after `obj[k] = v`, key k reads v and every other key reads what it read before |
| Text.SplitJoin | src/hooks.ts:56-58 | splitting a comma-joined list of comma-free items gives the items back |
| Text.ParseMagnitude | src/components/ore-table.tsx:158 | after a `0x`/`0X` prefix, `parseInt` gives a number exactly when a hexadecimal digit follows, and `NaN` otherwise; without the prefix it reads the decimal run |
| Text.ParseIntOfHexThen | src/components/ore-table.tsx:158 | `parseInt` of `0x`/`0X`, a non-empty hexadecimal run and text that does not continue the run is the run's radix-16 value |
| Text.ParseIntOfToHex | src/components/ore-table.tsx:158 | every number written as `0x` plus its hexadecimal form reads back as itself |
| Text.ParseIntHex | src/components/ore-table.tsx:171 | `parseInt("0x")` is `NaN` and `0x` followed by one hexadecimal digit is that digit's value |
| Text.ParseIntOfNatToString | src/components/ore-table.tsx:158 | `parseInt` reads back the decimal form of a number whatever non-digit text follows it, except `x`/`X` after the number 0, which starts a hexadecimal number |

## Left out

- Rendering is left out: JSX, styling, icons, the modal and the asteroid-type buttons are presentation. The selected asteroid type is a parameter.
- Price polling is left out. The refresh interval and focus throttle of the data fetching hook are timers. The fetched price map is an input, or absent.
- Network and storage are left out. `fetch`, the market endpoint and the local-storage persistence of the filter maps are I/O. The persisted maps are plain values.
- Catalogue extraction I/O is left out: the download, the SQLite queries and the file write of generate-ores.mjs. The queries are the lookup functions of `GenerateOres.Db`. The query's `groupId` column is taken to equal the group id asked for, as its `WHERE` clause ensures.
- The generator writes the JSON and drops `undefined` fields; that serialisation is left out.
- Floating point is left out. Prices are exact reals. `toFixed(2)` is exact decimal rounding, half away from zero, so binary rounding effects and NaN/Infinity are not modelled.
- The string formatting of the page's row cells (`${price} isk/m3`, `${bonus * 100}%`) is left out. `App.RowOf` keeps the numbers.
- The page's own `numericSort` (src/index.tsx:121-122) is left out. It compares `parseFloat` of those formatted strings.
- `localeCompare` is a parameter of `SortFunctions.LocaleSort`. The name sort of the lists uses Dafny character order (JavaScript compares UTF-16 code units, which agrees on the Basic Multilingual Plane).
- Sorting.SortBy: lodash `sortBy` is modelled as an insertion sort by a key that is a number, a string or `NaN`, with numbers before strings and `NaN` last. lodash's comparison calls a number and a string equal and falls back to input position, which is not a transitive order, so for a list that mixes numeric and string keys the source's result depends on the engine's sort algorithm. The model uses its chosen total order there. The source guarantees numeric order only when every key is numeric, and the same holds for `OreTable.FilterBonusesNumericOrder` and `OreTable.RegionsInNumericOrder`. In an availability list that also holds string tags such as "highsec", the source may not put R4 before R16.
- Stability of `sortBy` is not stated.
- The price map holds the `percentile` of each side as a number. Reading the string statistics (`+percentile`) is left out.
- Faults from a missing price entry, a missing primary ore or a zero volume are left out (the JavaScript would produce a TypeError or Infinity). Preconditions require full price coverage and positive volume, refine amount and compress amount.
- Unicode is left out. Strings are sequences of characters, and JavaScript whitespace in `parseInt` is reduced to space, tab and line breaks.
- `src/data.tsx` defines `ores`, `primaryOres`, `getOrePrice` and `getMineralsPrice` exactly as `src/data.ts` does, apart from the `+` coercion. They are modelled once, in `Data`.
- `oreGroups` and `oreAvailability`, which src/hooks.ts:2 imports from `./data`, are not defined by the data module. The initial group and availability maps are built from the table's projections, `OreTable.FilterGroups` and `OreTable.FilterAvailability`.
- Hooks.InitialBonusKeys: src/hooks.ts:21 builds the bonus map from `oreBonuses`, which src/data.ts:12-14 defines as the catalogue's numeric bonuses (0, 0.05, 0.1). The model builds it from the rows' string bonus labels, the keys the table looks up, so the numeric keys of the data module are not modelled.
- The rows the table consumes have the `global.d.ts` shape: string bonus, `compressed`, `asteroidType`, `availableIn`. They are inputs, because the modelled `dataFactory` produces the older `types.d.ts` shape.
- SortFunctions.LocaleSort: the order `localeCompare` defines is library behaviour, so only reflexivity and antisymmetry carried over from the given comparison are stated.
