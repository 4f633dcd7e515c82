/** The valuation engine of src/data.ts: per-m³ prices of every catalogue
    record from the fetched percentiles, and the lists derived from the
    catalogue (`ores`, `primaryOres`, `oreBonuses`). Volume and refine batch
    size are always read from the record's primary (uncompressed) ore. */
module Data {
  import opened Collections
  import opened Text
  import opened Sorting
  import opened MineralTable
  import opened Types

  type Index = map<nat, CatalogueOre>

  /** The two refining efficiencies applied to the mineral value. */
  const StandardRefine: real := 0.7
  const PerfectRefine: real := 0.8934

  /** `new Map(oresList.map((ore) => [ore.id, ore]))`: every id of the
      catalogue is a key, and each key maps to a record carrying that id. */
  function IndexById(ores: seq<CatalogueOre>): (m: Index)
    ensures m.Keys == set o | o in ores :: o.id
    ensures forall id :: id in m ==> m[id].id == id
  {
    if |ores| == 0 then map[]
    else
      var init := ores[..|ores| - 1];
      assert ores == init + [ores[|ores| - 1]];
      IndexById(init)[ores[|ores| - 1].id := ores[|ores| - 1]]
  }

  /** Every record the index holds comes from the catalogue. */
  lemma {:induction false} IndexByIdSound(ores: seq<CatalogueOre>, id: nat)
    requires id in IndexById(ores)
    ensures IndexById(ores)[id] in ores
    decreases |ores|
  {
    var init := ores[..|ores| - 1];
    if id != ores[|ores| - 1].id {
      IndexByIdSound(init, id);
      assert IndexById(init)[id] in init;
    }
  }

  /** A later record with the same id overwrites an earlier one: the index
      holds the last record carrying each id. */
  lemma {:induction false} IndexByIdLastWins(ores: seq<CatalogueOre>, i: nat)
    requires i < |ores|
    requires forall j :: i < j < |ores| ==> ores[j].id != ores[i].id
    ensures IndexById(ores)[ores[i].id] == ores[i]
    decreases |ores|
  {
    if i < |ores| - 1 {
      IndexByIdLastWins(ores[..|ores| - 1], i);
    }
  }

  /** `+priceMap[id][side].percentile`. */
  function Percentile(pm: PriceMap, id: nat, side: Side): real
    requires IdKey(id) in pm
  {
    pm[IdKey(id)].Percentile(side)
  }

  lemma DivideTwice(p: real, c: real, v: real)
    requires c > 0.0 && v > 0.0
    ensures p / c / v * c * v == p
  {
    var q := p / c;
    assert q * c == p;
    assert q / v * v == q;
    assert q / v * c * v == q / v * v * c;
  }

  /** `getOrePrice`: the percentile per m³ of the primary ore's volume, the
      percentile being spread over `compressAmount` units; a non-positive
      percentile gives exactly 0. */
  function GetOrePrice(index: Index, pm: PriceMap, ore: CatalogueOre, side: Side): (r: real)
    requires ore.primaryOreId in index && index[ore.primaryOreId].volume > 0.0
    requires ore.compressAmount > 0.0
    requires IdKey(ore.id) in pm
    ensures r >= 0.0
    ensures Percentile(pm, ore.id, side) <= 0.0 ==> r == 0.0
    ensures Percentile(pm, ore.id, side) > 0.0 ==>
              r * ore.compressAmount * index[ore.primaryOreId].volume == Percentile(pm, ore.id, side)
  {
    var primary := index[ore.primaryOreId];
    var p := Percentile(pm, ore.id, side);
    if p > 0.0 then
      DivideTwice(p, ore.compressAmount, primary.volume);
      p / ore.compressAmount / primary.volume
    else 0.0
  }

  /** Normalisation across compression: two records of the same primary ore
      whose percentiles are in the ratio of their `compressAmount`s get the
      same per-m³ price, so a compressed variant is comparable with its raw
      ore. */
  lemma CompressionNormalization(index: Index, pm: PriceMap, a: CatalogueOre, b: CatalogueOre, side: Side)
    requires a.primaryOreId == b.primaryOreId
    requires a.primaryOreId in index && index[a.primaryOreId].volume > 0.0
    requires a.compressAmount > 0.0 && b.compressAmount > 0.0
    requires IdKey(a.id) in pm && IdKey(b.id) in pm
    requires Percentile(pm, a.id, side) > 0.0 && Percentile(pm, b.id, side) > 0.0
    requires Percentile(pm, a.id, side) / a.compressAmount == Percentile(pm, b.id, side) / b.compressAmount
    ensures GetOrePrice(index, pm, a, side) == GetOrePrice(index, pm, b, side)
  {
  }

  /** Every mineral of a record has an entry in the price map. */
  predicate MineralsPriced(pm: PriceMap, minerals: Entries) {
    forall i :: 0 <= i < |minerals| ==> IdKey(minerals[i].0) in pm
  }

  lemma DivideSum(a: real, b: real, d: real)
    requires d > 0.0
    ensures a / d + b / d == (a + b) / d
  {
    assert (a / d + b / d) * d == a + b;
  }

  /** Dividing a sum by two positive factors, term by term. */
  lemma DivideSumTwice(a: real, b: real, d: real, e: real)
    requires d > 0.0 && e > 0.0
    ensures a / d / e + b / d / e == (a + b) / d / e
  {
    DivideSum(a, b, d);
    DivideSum(a / d, b / d, e);
  }

  /** The value of one mineral entry: percentile × quantity. */
  function EntryValue(pm: PriceMap, e: (nat, real), side: Side): real
    requires IdKey(e.0) in pm
  {
    Percentile(pm, e.0, side) * e.1
  }

  /** Σ percentile × quantity over the mineral entries. */
  function RawMineralValue(pm: PriceMap, minerals: Entries, side: Side): real
    requires MineralsPriced(pm, minerals)
  {
    if |minerals| == 0 then 0.0
    else
      var e := minerals[|minerals| - 1];
      RawMineralValue(pm, minerals[..|minerals| - 1], side) + EntryValue(pm, e, side)
  }

  /** `Object.entries(minerals).map(([id, amount]) =>
      price * amount / refineAmount / volume).reduce((a, b) => a + b, 0)`. */
  function SumMineralTerms(pm: PriceMap, minerals: Entries, side: Side, refineAmount: real, volume: real): real
    requires MineralsPriced(pm, minerals)
    requires refineAmount > 0.0 && volume > 0.0
  {
    if |minerals| == 0 then 0.0
    else
      var e := minerals[|minerals| - 1];
      SumMineralTerms(pm, minerals[..|minerals| - 1], side, refineAmount, volume)
        + EntryValue(pm, e, side) / refineAmount / volume
  }

  lemma {:induction false} SumMineralTermsFactors(pm: PriceMap, minerals: Entries, side: Side, refineAmount: real, volume: real)
    requires MineralsPriced(pm, minerals)
    requires refineAmount > 0.0 && volume > 0.0
    ensures SumMineralTerms(pm, minerals, side, refineAmount, volume)
            == RawMineralValue(pm, minerals, side) / refineAmount / volume
    decreases |minerals|
  {
    if |minerals| > 0 {
      var init := minerals[..|minerals| - 1];
      var e := minerals[|minerals| - 1];
      SumMineralTermsFactors(pm, init, side, refineAmount, volume);
      var a := RawMineralValue(pm, init, side);
      var b := EntryValue(pm, e, side);
      assert SumMineralTerms(pm, minerals, side, refineAmount, volume)
             == SumMineralTerms(pm, init, side, refineAmount, volume) + b / refineAmount / volume;
      assert RawMineralValue(pm, minerals, side) == a + b;
      DivideSumTwice(a, b, refineAmount, volume);
    }
  }

  /** With non-negative prices and quantities the mineral value is
      non-negative. */
  lemma {:induction false} RawMineralValueNonNegative(pm: PriceMap, minerals: Entries, side: Side)
    requires MineralsPriced(pm, minerals)
    requires forall i :: 0 <= i < |minerals| ==> minerals[i].1 >= 0.0 && Percentile(pm, minerals[i].0, side) >= 0.0
    ensures RawMineralValue(pm, minerals, side) >= 0.0
    decreases |minerals|
  {
    if |minerals| > 0 {
      var e := minerals[|minerals| - 1];
      RawMineralValueNonNegative(pm, minerals[..|minerals| - 1], side);
      assert EntryValue(pm, e, side) >= 0.0;
    }
  }

  /** `getMineralsPrice`: the mineral content's price per m³ of the primary
      ore, before any refining efficiency; 0 for a record without
      minerals. */
  function GetMineralsPrice(index: Index, pm: PriceMap, ore: CatalogueOre, side: Side): (r: real)
    requires ore.primaryOreId in index
    requires index[ore.primaryOreId].volume > 0.0 && index[ore.primaryOreId].refineAmount > 0.0
    requires MineralsPriced(pm, ore.minerals)
    ensures r == RawMineralValue(pm, ore.minerals, side)
                 / index[ore.primaryOreId].refineAmount / index[ore.primaryOreId].volume
    ensures |ore.minerals| == 0 ==> r == 0.0
  {
    var primary := index[ore.primaryOreId];
    SumMineralTermsFactors(pm, ore.minerals, side, primary.refineAmount, primary.volume);
    SumMineralTerms(pm, ore.minerals, side, primary.refineAmount, primary.volume)
  }

  /** One record of `dataFactory`'s output. */
  datatype Valuation = Valuation(
    id: nat,
    name: string,
    group: string,
    bonus: real,
    color: string,
    primaryOreId: nat,
    buy: BuySellPrice,
    sell: BuySellPrice,
    compressed: bool)

  /** What a record needs to be valued: a primary ore with positive volume
      and refine batch, a positive compression, and prices for the record
      and all its minerals. */
  predicate Valuable(index: Index, pm: PriceMap, ore: CatalogueOre) {
    && ore.primaryOreId in index
    && index[ore.primaryOreId].volume > 0.0
    && index[ore.primaryOreId].refineAmount > 0.0
    && ore.compressAmount > 0.0
    && IdKey(ore.id) in pm
    && MineralsPriced(pm, ore.minerals)
  }

  /** The figures of one market side as the engine defines them. */
  predicate SideValued(p: BuySellPrice, percentile: real, compressAmount: real, volume: real, mineralsPerM3: real) {
    && p.individual == percentile
    && (percentile <= 0.0 ==> p.perm3 == 0.0)
    && (percentile > 0.0 ==> p.perm3 * compressAmount * volume == percentile)
    && p.minerals == mineralsPerM3 * StandardRefine
    && p.perfectMinerals == mineralsPerM3 * PerfectRefine
  }

  /** `v` is the valuation of `ore` under the prices `pm`. */
  predicate Values(index: Index, pm: PriceMap, ore: CatalogueOre, v: Valuation)
    requires Valuable(index, pm, ore)
  {
    var primary := index[ore.primaryOreId];
    && v.id == ore.id && v.name == ore.name && v.bonus == ore.bonus
    && v.color == ore.color && v.primaryOreId == ore.primaryOreId
    && v.group == primary.name
    && (v.compressed <==> ore.compressAmount == 100.0)
    && SideValued(v.buy, Percentile(pm, ore.id, Buy), ore.compressAmount, primary.volume,
                  RawMineralValue(pm, ore.minerals, Buy) / primary.refineAmount / primary.volume)
    && SideValued(v.sell, Percentile(pm, ore.id, Sell), ore.compressAmount, primary.volume,
                  RawMineralValue(pm, ore.minerals, Sell) / primary.refineAmount / primary.volume)
  }

  /** The figures `dataFactory` computes for one market side of one ore. */
  function ValuateSide(index: Index, pm: PriceMap, ore: CatalogueOre, side: Side): (p: BuySellPrice)
    requires Valuable(index, pm, ore)
    ensures SideValued(p, Percentile(pm, ore.id, side), ore.compressAmount, index[ore.primaryOreId].volume,
                       RawMineralValue(pm, ore.minerals, side)
                         / index[ore.primaryOreId].refineAmount / index[ore.primaryOreId].volume)
  {
    var minerals := GetMineralsPrice(index, pm, ore, side);
    BuySellPrice(GetOrePrice(index, pm, ore, side), Percentile(pm, ore.id, side),
                 minerals * StandardRefine, minerals * PerfectRefine)
  }

  /** The record `dataFactory` builds for one catalogue ore. */
  function Valuate(index: Index, pm: PriceMap, ore: CatalogueOre): (v: Valuation)
    requires Valuable(index, pm, ore)
    ensures Values(index, pm, ore, v)
  {
    Valuation(
      ore.id, ore.name, index[ore.primaryOreId].name, ore.bonus, ore.color, ore.primaryOreId,
      ValuateSide(index, pm, ore, Buy), ValuateSide(index, pm, ore, Sell),
      ore.compressAmount == 100.0)
  }

  /** The catalogue filter of `dataFactory`: bonus tiers below 15%. */
  predicate Kept(ore: CatalogueOre) {
    ore.bonus < 0.15
  }

  /** `dataFactory(priceMap)`: absent while there is no price map, otherwise
      one valuation per kept catalogue record, in catalogue order. */
  function DataFactory(catalogue: seq<CatalogueOre>, pm: Option<PriceMap>): (r: Option<seq<Valuation>>)
    requires pm.Some? ==> forall o :: o in catalogue && Kept(o) ==> Valuable(IndexById(catalogue), pm.value, o)
    ensures r.None? <==> pm.None?
    ensures r.Some? ==>
              var kept := Filter(catalogue, Kept);
              && |r.value| == |kept|
              && forall i :: 0 <= i < |kept| ==> Values(IndexById(catalogue), pm.value, kept[i], r.value[i])
  {
    if pm.None? then None
    else
      var index := IndexById(catalogue);
      var kept := Filter(catalogue, Kept);
      assert forall o :: o in kept ==> Valuable(index, pm.value, o);
      Some(seq(|kept|, i requires 0 <= i < |kept| => Valuate(index, pm.value, kept[i])))
  }

  /** Refining perfectly is never worth less than refining at the standard
      rate, as long as no mineral price or quantity is negative. */
  lemma PerfectMineralsDominate(index: Index, pm: PriceMap, ore: CatalogueOre, v: Valuation, side: Side)
    requires Valuable(index, pm, ore) && Values(index, pm, ore, v)
    requires forall i :: 0 <= i < |ore.minerals| ==>
               ore.minerals[i].1 >= 0.0 && Percentile(pm, ore.minerals[i].0, side) >= 0.0
    ensures var p := if side == Buy then v.buy else v.sell;
            0.0 <= p.minerals <= p.perfectMinerals
  {
    var primary := index[ore.primaryOreId];
    RawMineralValueNonNegative(pm, ore.minerals, side);
    var raw := RawMineralValue(pm, ore.minerals, side);
    assert raw / primary.refineAmount >= 0.0;
    assert raw / primary.refineAmount / primary.volume >= 0.0;
  }

  /** The worked example: Veldspar (id 1, volume 0.1, batch 100, 400
      Tritanium per batch) at buy percentile 10 with Tritanium (id 2) at
      buy percentile 5 is worth 100 ISK/m³ raw and 140 ISK/m³ refined at the
      standard rate. */
  lemma VeldsparExample()
    ensures var veldspar := CatalogueOre(1, 0.1, 1.0, 100.0, 0.0, "Veldspar", 1, "#d3b871", [(2, 400.0)]);
            var pm := map[IdKey(1) := Price(10.0, 12.0), IdKey(2) := Price(5.0, 6.0)];
            var r := DataFactory([veldspar], Some(pm));
            && r.Some? && |r.value| == 1
            && r.value[0].buy.perm3 == 100.0
            && r.value[0].buy.minerals == 140.0
            && r.value[0].sell.perm3 == 120.0
  {
    var veldspar := CatalogueOre(1, 0.1, 1.0, 100.0, 0.0, "Veldspar", 1, "#d3b871", [(2, 400.0)]);
    var pm := map[IdKey(1) := Price(10.0, 12.0), IdKey(2) := Price(5.0, 6.0)];
    var index := IndexById([veldspar]);
    assert index == map[1 := veldspar] by {
      assert [veldspar][..0] == [];
    }
    VeldsparValuation(veldspar, pm);
    assert Filter([veldspar], Kept) == [veldspar] by {
      FilterAppend([], veldspar, Kept);
    }
  }

  /** The figures of the worked example, for the record on its own. */
  lemma VeldsparValuation(veldspar: CatalogueOre, pm: PriceMap)
    requires veldspar == CatalogueOre(1, 0.1, 1.0, 100.0, 0.0, "Veldspar", 1, "#d3b871", [(2, 400.0)])
    requires pm == map[IdKey(1) := Price(10.0, 12.0), IdKey(2) := Price(5.0, 6.0)]
    ensures Valuable(map[1 := veldspar], pm, veldspar)
    ensures var v := Valuate(map[1 := veldspar], pm, veldspar);
            v.buy.perm3 == 100.0 && v.buy.minerals == 140.0 && v.sell.perm3 == 120.0
  {
    assert IdKey(1) == "1" && IdKey(2) == "2";
    var v := Valuate(map[1 := veldspar], pm, veldspar);
    assert Percentile(pm, 1, Buy) == 10.0 && Percentile(pm, 1, Sell) == 12.0;
    assert RawMineralValue(pm, veldspar.minerals, Buy) == 2000.0;
    assert v.buy.perm3 * 0.1 == 10.0 && v.sell.perm3 * 0.1 == 12.0;
  }

  function IdOf(o: CatalogueOre): nat { o.id }

  function NameKey(o: CatalogueOre): SortKey { Str(o.name) }

  /** Every record's primary ore is itself in the catalogue. */
  predicate PrimariesPresent(catalogue: seq<CatalogueOre>) {
    forall o :: o in catalogue ==> o.primaryOreId in IndexById(catalogue)
  }

  /** The distinct primary ore ids in order of first appearance. */
  function PrimaryIds(catalogue: seq<CatalogueOre>): (ids: seq<nat>)
    ensures Distinct(ids)
    ensures forall id :: id in ids <==> exists o :: o in catalogue && o.primaryOreId == id
  {
    var all: seq<nat> := seq(|catalogue|, i requires 0 <= i < |catalogue| => catalogue[i].primaryOreId);
    assert forall o :: o in catalogue ==> o.primaryOreId in all by {
      forall o | o in catalogue ensures o.primaryOreId in all {
        var i :| 0 <= i < |catalogue| && catalogue[i] == o;
        assert all[i] == o.primaryOreId;
      }
    }
    assert forall id :: id in all ==> exists o :: o in catalogue && o.primaryOreId == id by {
      forall id | id in all ensures exists o :: o in catalogue && o.primaryOreId == id {
        var i :| 0 <= i < |all| && all[i] == id;
        assert catalogue[i] in catalogue;
      }
    }
    Uniq(all)
  }

  /** The index entries of `ids`, in order. */
  function Lookup(index: Index, ids: seq<nat>): (recs: seq<CatalogueOre>)
    requires forall i :: 0 <= i < |ids| ==> ids[i] in index
    ensures |recs| == |ids| && forall i :: 0 <= i < |ids| ==> recs[i] == index[ids[i]]
  {
    seq(|ids|, i requires 0 <= i < |ids| => index[ids[i]])
  }

  lemma PrimaryIdsIndexed(catalogue: seq<CatalogueOre>)
    requires PrimariesPresent(catalogue)
    ensures forall i :: 0 <= i < |PrimaryIds(catalogue)| ==> PrimaryIds(catalogue)[i] in IndexById(catalogue)
  {
    var ids := PrimaryIds(catalogue);
    forall i | 0 <= i < |ids| ensures ids[i] in IndexById(catalogue) {
      assert ids[i] in ids;
    }
  }

  /** `primaryOres`: the catalogue record of each distinct `primaryOreId`,
      ordered by name. */
  function PrimaryOres(catalogue: seq<CatalogueOre>): (r: seq<CatalogueOre>)
    requires PrimariesPresent(catalogue)
    ensures SortedBy(r, NameKey)
  {
    PrimaryIdsIndexed(catalogue);
    SortBy(Lookup(IndexById(catalogue), PrimaryIds(catalogue)), NameKey)
  }

  /** Each primary ore appears once: no two entries share an id. */
  lemma PrimaryOresDistinct(catalogue: seq<CatalogueOre>)
    requires PrimariesPresent(catalogue)
    ensures DistinctBy(PrimaryOres(catalogue), IdOf)
  {
    var index := IndexById(catalogue);
    var ids := PrimaryIds(catalogue);
    PrimaryIdsIndexed(catalogue);
    var recs := Lookup(index, ids);
    assert DistinctBy(recs, IdOf) by {
      forall i, j | 0 <= i < j < |recs| ensures IdOf(recs[i]) != IdOf(recs[j]) {
        assert IdOf(recs[i]) == ids[i] && IdOf(recs[j]) == ids[j];
      }
    }
    SortByDistinctBy(recs, NameKey, IdOf);
  }

  /** Every record's primary ore is listed. */
  lemma PrimaryOresComplete(catalogue: seq<CatalogueOre>)
    requires PrimariesPresent(catalogue)
    ensures forall o :: o in catalogue ==> IndexById(catalogue)[o.primaryOreId] in PrimaryOres(catalogue)
  {
    var index := IndexById(catalogue);
    var ids := PrimaryIds(catalogue);
    PrimaryIdsIndexed(catalogue);
    var recs := Lookup(index, ids);
    SortByElements(recs, NameKey);
    forall o | o in catalogue ensures index[o.primaryOreId] in PrimaryOres(catalogue) {
      assert o.primaryOreId in ids;
      var k :| 0 <= k < |ids| && ids[k] == o.primaryOreId;
      assert recs[k] == index[o.primaryOreId];
      assert recs[k] in recs;
    }
  }

  /** A listed primary ore is the catalogue record of some record's
      primary ore. */
  lemma PrimaryOreSound(catalogue: seq<CatalogueOre>, x: CatalogueOre)
    requires PrimariesPresent(catalogue)
    requires x in PrimaryOres(catalogue)
    ensures x in catalogue && x == IndexById(catalogue)[x.id]
    ensures exists o :: o in catalogue && o.primaryOreId == x.id
  {
    var index := IndexById(catalogue);
    var ids := PrimaryIds(catalogue);
    PrimaryIdsIndexed(catalogue);
    var recs := Lookup(index, ids);
    assert PrimaryOres(catalogue) == SortBy(recs, NameKey);
    assert x in recs by {
      SortByElements(recs, NameKey);
    }
    var k :| 0 <= k < |recs| && recs[k] == x;
    assert ids[k] in ids;
    IndexByIdSound(catalogue, ids[k]);
  }

  /** Every entry is the catalogue record of some record's primary ore. */
  lemma PrimaryOresSound(catalogue: seq<CatalogueOre>)
    requires PrimariesPresent(catalogue)
    ensures forall x :: x in PrimaryOres(catalogue) ==>
              x in catalogue && x == IndexById(catalogue)[x.id]
              && exists o :: o in catalogue && o.primaryOreId == x.id
  {
    forall x | x in PrimaryOres(catalogue)
      ensures x in catalogue && x == IndexById(catalogue)[x.id]
      ensures exists o :: o in catalogue && o.primaryOreId == x.id
    {
      PrimaryOreSound(catalogue, x);
    }
  }

  function NumKey(b: real): SortKey { Num(b) }

  function Value(b: real): real { b }

  /** The bonus of every record, in catalogue order. */
  function Bonuses(catalogue: seq<CatalogueOre>): (all: seq<real>)
    ensures |all| == |catalogue| && forall i :: 0 <= i < |catalogue| ==> all[i] == catalogue[i].bonus
  {
    MapSeq(catalogue, (o: CatalogueOre) => o.bonus)
  }

  /** `oreBonuses`: the distinct bonuses of the catalogue, sorted. */
  function OreBonuses(catalogue: seq<CatalogueOre>): (r: seq<real>)
    ensures SortedBy(r, NumKey)
  {
    SortBy(Uniq(Bonuses(catalogue)), NumKey)
  }

  /** The bonuses are strictly increasing, so none is listed twice. */
  lemma OreBonusesIncreasing(catalogue: seq<CatalogueOre>)
    ensures var r := OreBonuses(catalogue);
            forall i, j :: 0 <= i < j < |r| ==> r[i] < r[j]
  {
    var r := OreBonuses(catalogue);
    SortByDistinctBy(Uniq(Bonuses(catalogue)), NumKey, Value);
    forall i, j | 0 <= i < j < |r| ensures r[i] < r[j] {
      assert KeyLe(NumKey(r[i]), NumKey(r[j]));
      assert Value(r[i]) != Value(r[j]);
    }
  }

  /** The bonuses listed are exactly those that occur in the catalogue. */
  lemma OreBonusesExact(catalogue: seq<CatalogueOre>)
    ensures forall b :: b in OreBonuses(catalogue) <==> exists o :: o in catalogue && o.bonus == b
  {
    var all := Bonuses(catalogue);
    SortByElements(Uniq(all), NumKey);
    forall b | b in OreBonuses(catalogue) ensures exists o :: o in catalogue && o.bonus == b {
      var i :| 0 <= i < |all| && all[i] == b;
      assert catalogue[i] in catalogue;
    }
    forall o | o in catalogue ensures o.bonus in OreBonuses(catalogue) {
      var i :| 0 <= i < |catalogue| && catalogue[i] == o;
      assert all[i] in all;
    }
  }
}
