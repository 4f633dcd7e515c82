/** The shared state of src/hooks.ts: the initial filter maps, the list of
    type ids whose prices are requested, and the valuations exposed to the
    table. The `oreGroups`, `oreBonuses` and `oreAvailability` lists it
    imports are taken to be the table's projections over all rows. */
module Hooks {
  import opened Collections
  import opened Text
  import opened Types
  import opened MineralTable
  import opened FilterMaps
  import opened OreTable
  import Data

  function GroupNames(groups: seq<OreGroup>): (names: seq<string>)
    ensures |names| == |groups| && forall i :: 0 <= i < |groups| ==> names[i] == groups[i].name
  {
    seq(|groups|, i requires 0 <= i < |groups| => groups[i].name)
  }

  /** The compressed filter starts with both "true" and "false" enabled. */
  const InitialCompressed: FilterMap := map["true" := true, "false" := true]

  /** The initial state of the four filter maps: every group, bonus and
      availability value enabled. */
  function InitialFilters(rows: seq<OrePrice>): (f: Filters)
    ensures forall k :: k in f.ore ==> f.ore[k]
    ensures forall k :: k in f.bonus ==> f.bonus[k]
    ensures f.compressed.Keys == {"true", "false"} && f.compressed["true"] && f.compressed["false"]
    ensures forall k :: k in f.availability ==> f.availability[k]
  {
    Filters(
      AllEnabled(GroupNames(FilterGroups(rows))),
      AllEnabled(FilterBonuses(rows)),
      InitialCompressed,
      AllEnabled(FilterAvailability(rows)))
  }

  /** Every group name offered is the group of some row. */
  lemma GroupNamesSound(rows: seq<OrePrice>)
    ensures forall k :: k in GroupNames(FilterGroups(rows)) ==> exists x :: x in rows && x.group == k
  {
    var groups := FilterGroups(rows);
    var names := GroupNames(groups);
    forall k | k in names ensures exists x :: x in rows && x.group == k {
      var i :| 0 <= i < |names| && names[i] == k;
      assert groups[i] in groups;
      assert exists j :: 0 <= j < |rows| && groups[i] == GroupOf(rows[j]) by {
        FilterGroupsFromFirstRow(rows);
      }
      var j :| 0 <= j < |rows| && groups[i] == GroupOf(rows[j]);
      assert rows[j] in rows;
    }
  }

  /** The group of a row is offered. */
  lemma GroupNameOffered(rows: seq<OrePrice>, x: OrePrice)
    requires x in rows
    ensures x.group in GroupNames(FilterGroups(rows))
  {
    var groups := FilterGroups(rows);
    var names := GroupNames(groups);
    assert HasKey(groups, GroupName, x.group) by {
      FilterGroupsCover(rows);
    }
    var i :| 0 <= i < |groups| && GroupName(groups[i]) == x.group;
    assert names[i] == x.group;
  }

  /** The group of every row is offered. */
  lemma GroupNamesComplete(rows: seq<OrePrice>)
    ensures forall x :: x in rows ==> x.group in GroupNames(FilterGroups(rows))
  {
    forall x | x in rows ensures x.group in GroupNames(FilterGroups(rows)) {
      GroupNameOffered(rows, x);
    }
  }

  /** The initial group map has a key for every group of the rows and no
      other key. */
  lemma InitialOreKeys(rows: seq<OrePrice>)
    ensures InitialFilters(rows).ore.Keys == set x | x in rows :: x.group
  {
    GroupNamesSound(rows);
    GroupNamesComplete(rows);
  }

  /** The initial bonus map has a key for every bonus of the rows and no
      other key. */
  lemma InitialBonusKeys(rows: seq<OrePrice>)
    ensures InitialFilters(rows).bonus.Keys == set x | x in rows :: x.bonus
  {
    FilterBonusesExact(rows);
  }

  /** The initial availability map has a key for every tag of the rows and
      no other key. */
  lemma InitialAvailabilityKeys(rows: seq<OrePrice>)
    ensures InitialFilters(rows).availability.Keys == set x, t | x in rows && t in x.availableIn :: t
  {
    FilterAvailabilityExact(rows);
  }

  lemma GroupInitiallyEnabled(rows: seq<OrePrice>, x: OrePrice)
    requires x in rows
    ensures Enabled(InitialFilters(rows).ore, x.group)
  {
    GroupNamesComplete(rows);
  }

  lemma BonusInitiallyEnabled(rows: seq<OrePrice>, x: OrePrice)
    requires x in rows
    ensures Enabled(InitialFilters(rows).bonus, x.bonus)
  {
    InitialBonusKeys(rows);
  }

  lemma AvailabilityInitiallyEnabled(rows: seq<OrePrice>, x: OrePrice, t: string)
    requires x in rows && t in x.availableIn
    ensures Enabled(InitialFilters(rows).availability, t)
  {
    InitialAvailabilityKeys(rows);
  }

  /** The initial filters admit every row that is available somewhere. */
  lemma InitiallyShown(rows: seq<OrePrice>, x: OrePrice)
    requires x in rows && |x.availableIn| > 0
    ensures Shown(InitialFilters(rows), x)
  {
    GroupInitiallyEnabled(rows, x);
    BonusInitiallyEnabled(rows, x);
    AvailabilityInitiallyEnabled(rows, x, x.availableIn[0]);
  }

  /** With the initial filters the table shows every row of the selected
      type except those available nowhere. */
  lemma DefaultFiltersShowEveryRow(rows: seq<OrePrice>, t: string)
    ensures forall x :: x in Visible(FilterByType(rows, t), InitialFilters(rows)) <==>
              x in rows && x.asteroidType == t && |x.availableIn| > 0
  {
    forall x | x in rows && |x.availableIn| > 0 ensures Shown(InitialFilters(rows), x) {
      InitiallyShown(rows, x);
    }
  }

  function MineralKeyLists(catalogue: seq<CatalogueOre>): (keys: seq<seq<nat>>)
    ensures |keys| == |catalogue| && forall i :: 0 <= i < |catalogue| ==> keys[i] == Keys(catalogue[i].minerals)
  {
    seq(|catalogue|, i requires 0 <= i < |catalogue| => Keys(catalogue[i].minerals))
  }

  /** A mineral id of some record. */
  predicate IsMineralOf(catalogue: seq<CatalogueOre>, id: nat) {
    exists o, i :: o in catalogue && 0 <= i < |o.minerals| && o.minerals[i].0 == id
  }

  /** The mineral ids referenced by any record, each once. */
  function MineralIds(catalogue: seq<CatalogueOre>): (ids: seq<nat>)
    ensures Distinct(ids)
    ensures forall o, i :: o in catalogue && 0 <= i < |o.minerals| ==> o.minerals[i].0 in ids
    ensures forall id :: id in ids ==> IsMineralOf(catalogue, id)
  {
    var lists := MineralKeyLists(catalogue);
    var all := Flatten(lists);
    forall o, i | o in catalogue && 0 <= i < |o.minerals| ensures o.minerals[i].0 in all {
      var j :| 0 <= j < |catalogue| && catalogue[j] == o;
      assert lists[j][i] == o.minerals[i].0;
    }
    forall id | id in all ensures IsMineralOf(catalogue, id) {
      var j :| 0 <= j < |lists| && id in lists[j];
      var i :| 0 <= i < |lists[j]| && lists[j][i] == id;
      assert catalogue[j] in catalogue && catalogue[j].minerals[i].0 == id;
    }
    Uniq(all)
  }

  function OreIds(catalogue: seq<CatalogueOre>): (ids: seq<nat>)
    ensures |ids| == |catalogue| && forall i :: 0 <= i < |catalogue| ==> ids[i] == catalogue[i].id
  {
    seq(|catalogue|, i requires 0 <= i < |catalogue| => catalogue[i].id)
  }

  /** `allItems`: the id of every record, then the mineral ids. */
  function AllItems(catalogue: seq<CatalogueOre>): (ids: seq<nat>)
    ensures |ids| == |catalogue| + |MineralIds(catalogue)|
    ensures forall i :: 0 <= i < |catalogue| ==> ids[i] == catalogue[i].id
    ensures forall j :: 0 <= j < |MineralIds(catalogue)| ==> ids[|catalogue| + j] == MineralIds(catalogue)[j]
  {
    OreIds(catalogue) + MineralIds(catalogue)
  }

  /** The request names every record and every mineral any record
      refines into. */
  lemma AllItemsCover(catalogue: seq<CatalogueOre>)
    ensures forall o :: o in catalogue ==> o.id in AllItems(catalogue)
    ensures forall o, i :: o in catalogue && 0 <= i < |o.minerals| ==> o.minerals[i].0 in AllItems(catalogue)
  {
    var ids := AllItems(catalogue);
    forall o | o in catalogue ensures o.id in ids {
      var j :| 0 <= j < |catalogue| && catalogue[j] == o;
      assert ids[j] == o.id;
    }
    forall o, i | o in catalogue && 0 <= i < |o.minerals| ensures o.minerals[i].0 in ids {
      var m := MineralIds(catalogue);
      assert o.minerals[i].0 in m;
      var j :| 0 <= j < |m| && m[j] == o.minerals[i].0;
      assert ids[|catalogue| + j] == m[j];
    }
  }

  /** A price map answering the request covers every record and every
      mineral the engine reads. */
  lemma PriceClosure(catalogue: seq<CatalogueOre>, pm: PriceMap)
    requires forall id :: id in AllItems(catalogue) ==> IdKey(id) in pm
    ensures forall o :: o in catalogue ==> IdKey(o.id) in pm && Data.MineralsPriced(pm, o.minerals)
  {
    AllItemsCover(catalogue);
  }

  /** The `types=` list of the price URL: read back, it yields the
      `allItems` ids in order. */
  function PriceUrl(catalogue: seq<CatalogueOre>): (types: string)
    ensures |catalogue| == 0 ==> types == ""
    ensures |catalogue| > 0 ==>
              var read := ReadTypeList(types);
              && |read| == |AllItems(catalogue)|
              && forall j :: 0 <= j < |read| ==> read[j] == Some(AllItems(catalogue)[j] as int)
  {
    if |catalogue| == 0 then
      assert MineralKeyLists(catalogue) == [];
      assert |AllItems(catalogue)| == 0;
      TypeList(AllItems(catalogue))
    else TypeList(AllItems(catalogue))
  }

  /** Read back, the price URL names every record and every mineral. */
  lemma PriceUrlCover(catalogue: seq<CatalogueOre>)
    requires |catalogue| > 0
    ensures forall o :: o in catalogue ==> Some(o.id as int) in ReadTypeList(PriceUrl(catalogue))
    ensures forall o, i :: o in catalogue && 0 <= i < |o.minerals| ==>
              Some(o.minerals[i].0 as int) in ReadTypeList(PriceUrl(catalogue))
  {
    var ids := AllItems(catalogue);
    var read := ReadTypeList(PriceUrl(catalogue));
    AllItemsCover(catalogue);
    forall id | id in ids ensures Some(id as int) in read {
      var j :| 0 <= j < |ids| && ids[j] == id;
      assert read[j] == Some(id as int);
    }
  }

  /** Every record's primary ore is present with a positive volume and
      refine batch, and every compression is positive. */
  predicate Physical(catalogue: seq<CatalogueOre>) {
    forall o :: o in catalogue ==>
      && o.primaryOreId in Data.IndexById(catalogue)
      && Data.IndexById(catalogue)[o.primaryOreId].volume > 0.0
      && Data.IndexById(catalogue)[o.primaryOreId].refineAmount > 0.0
      && o.compressAmount > 0.0
  }

  /** A physical catalogue with a price map answering the request can be
      valued in full. */
  lemma AnsweredRequestValuesAll(catalogue: seq<CatalogueOre>, pm: PriceMap)
    requires Physical(catalogue)
    requires forall id :: id in AllItems(catalogue) ==> IdKey(id) in pm
    ensures forall o :: o in catalogue ==> Data.Valuable(Data.IndexById(catalogue), pm, o)
  {
    forall o | o in catalogue ensures Data.Valuable(Data.IndexById(catalogue), pm, o) {
      assert IdKey(o.id) in pm && Data.MineralsPriced(pm, o.minerals) by {
        PriceClosure(catalogue, pm);
      }
    }
  }

  /** What `usePrices` exposes. */
  datatype PricesState = PricesState(data: Option<seq<Data.Valuation>>, error: bool)

  /** `usePrices`: the engine applied to whatever price map has arrived,
      next to the fetch error flag; absent until a price map exists. */
  function UsePrices(catalogue: seq<CatalogueOre>, pm: Option<PriceMap>, error: bool): (s: PricesState)
    requires Physical(catalogue)
    requires pm.Some? ==> forall id :: id in AllItems(catalogue) ==> IdKey(id) in pm.value
    ensures s.error == error
    ensures s.data.None? <==> pm.None?
    ensures s.data.Some? ==> |s.data.value| == |Filter(catalogue, Data.Kept)|
    ensures s.data.Some? ==>
              (AnsweredRequestValuesAll(catalogue, pm.value);
               var kept := Filter(catalogue, Data.Kept);
               forall i :: 0 <= i < |kept| ==>
                 Data.Values(Data.IndexById(catalogue), pm.value, kept[i], s.data.value[i]))
  {
    if pm.Some? then
      AnsweredRequestValuesAll(catalogue, pm.value);
      PricesState(Data.DataFactory(catalogue, pm), error)
    else PricesState(None, error)
  }
}
