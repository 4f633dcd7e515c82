/** The first front end, src/index.tsx: the same valuation as module Data,
    but computed per column with an explicit refining efficiency and
    rounded to two decimals, plus the price request it sends and the
    error / loading / table decision. */
module App {
  import opened Collections
  import opened Types
  import Data

  /** `y` rounded to the nearest integer, a tie going away from zero. */
  function RoundHalfAway(y: real): (n: int)
    ensures -0.5 <= n as real - y <= 0.5
    ensures y >= 0.0 ==> n >= 0
    ensures y >= 0.0 ==> n as real - y > -0.5
    ensures y < 0.0 ==> n as real - y < 0.5
  {
    if y >= 0.0 then (y + 0.5).Floor else -((-y + 0.5).Floor)
  }

  /** `+x.toFixed(2)` on exact reals: the multiple of 0.01 nearest to `x`,
      a tie going away from zero. */
  function ToFixed2(x: real): (r: real)
    ensures -0.005 <= r - x <= 0.005
    ensures x >= 0.0 ==> r - x > -0.005
    ensures x < 0.0 ==> r - x < 0.005
    ensures (r * 100.0).Floor as real == r * 100.0
    ensures x >= 0.0 ==> r >= 0.0
  {
    var n := RoundHalfAway(x * 100.0);
    assert (n as real / 100.0) * 100.0 == n as real;
    n as real / 100.0
  }

  /** A value that already has two decimals is left as it is. */
  lemma ToFixed2OfCents(n: int)
    ensures ToFixed2(n as real / 100.0) == n as real / 100.0
  {
    var x := n as real / 100.0;
    assert x * 100.0 == n as real;
    if n >= 0 {
      assert (n as real + 0.5).Floor == n;
    } else {
      assert (-(n as real) + 0.5).Floor == -n;
    }
  }

  /** Rounding twice is rounding once. */
  lemma ToFixed2Idempotent(x: real)
    ensures ToFixed2(ToFixed2(x)) == ToFixed2(x)
  {
    var r := ToFixed2(x);
    var n := (r * 100.0).Floor;
    assert r == n as real / 100.0;
    ToFixed2OfCents(n);
  }

  /** `getOrePrice` of src/index.tsx: the engine's per-m³ price, rounded to
      cents. */
  function GetOrePrice(index: Data.Index, pm: PriceMap, ore: CatalogueOre, side: Side): (r: real)
    requires ore.primaryOreId in index && index[ore.primaryOreId].volume > 0.0
    requires ore.compressAmount > 0.0
    requires IdKey(ore.id) in pm
    ensures r == ToFixed2(Data.GetOrePrice(index, pm, ore, side))
    ensures Data.Percentile(pm, ore.id, side) <= 0.0 ==> r == 0.0
    ensures -0.005 <= r - Data.GetOrePrice(index, pm, ore, side) <= 0.005
  {
    var primary := index[ore.primaryOreId];
    var p := Data.Percentile(pm, ore.id, side);
    if p > 0.0 then ToFixed2(p / ore.compressAmount / primary.volume)
    else
      ToFixed2OfCents(0);
      0.0
  }

  /** `getMineralsPrice` of src/index.tsx: the mineral value per m³ scaled
      by `refinePercent`, rounded to cents. */
  function GetMineralsPrice(index: Data.Index, pm: PriceMap, ore: CatalogueOre, side: Side, refinePercent: real): (r: real)
    requires ore.primaryOreId in index
    requires index[ore.primaryOreId].volume > 0.0 && index[ore.primaryOreId].refineAmount > 0.0
    requires Data.MineralsPriced(pm, ore.minerals)
    ensures r == ToFixed2(Data.GetMineralsPrice(index, pm, ore, side) * refinePercent)
  {
    var primary := index[ore.primaryOreId];
    var sum := Data.SumMineralTerms(pm, ore.minerals, side, primary.refineAmount, primary.volume);
    assert sum == Data.GetMineralsPrice(index, pm, ore, side) by {
      Data.SumMineralTermsFactors(pm, ore.minerals, side, primary.refineAmount, primary.volume);
    }
    var scaled := sum * refinePercent;
    assert scaled == Data.GetMineralsPrice(index, pm, ore, side) * refinePercent;
    ToFixed2(scaled)
  }

  /** The numbers of one table row; the cells append " isk/m3" and "%" to
      them. */
  datatype Row = Row(
    id: nat,
    name: string,
    bonusPercent: real,
    buy: real,
    mineralsBuy: real,
    perfectMineralsBuy: real,
    sell: real,
    mineralsSell: real,
    perfectMineralsSell: real)

  function RowOf(index: Data.Index, pm: PriceMap, ore: CatalogueOre): (r: Row)
    requires Data.Valuable(index, pm, ore)
    ensures r.id == ore.id && r.name == ore.name && r.bonusPercent == ore.bonus * 100.0
  {
    Row(ore.id, ore.name, ore.bonus * 100.0,
        GetOrePrice(index, pm, ore, Buy),
        GetMineralsPrice(index, pm, ore, Buy, Data.StandardRefine),
        GetMineralsPrice(index, pm, ore, Buy, Data.PerfectRefine),
        GetOrePrice(index, pm, ore, Sell),
        GetMineralsPrice(index, pm, ore, Sell, Data.StandardRefine),
        GetMineralsPrice(index, pm, ore, Sell, Data.PerfectRefine))
  }

  /** Every record of the catalogue that the table needs can be valued. */
  predicate Priced(catalogue: seq<CatalogueOre>, pm: PriceMap) {
    forall o :: o in catalogue && Data.Kept(o) ==> Data.Valuable(Data.IndexById(catalogue), pm, o)
  }

  /** The table rows: one per record with a bonus below 15%, in catalogue
      order. */
  function Rows(catalogue: seq<CatalogueOre>, pm: PriceMap): (rows: seq<Row>)
    requires Priced(catalogue, pm)
    ensures var kept := Filter(catalogue, Data.Kept);
            |rows| == |kept| && forall i :: 0 <= i < |kept| ==> rows[i].id == kept[i].id
  {
    var index := Data.IndexById(catalogue);
    var kept := Filter(catalogue, Data.Kept);
    seq(|kept|, i requires 0 <= i < |kept| => RowOf(index, pm, kept[i]))
  }

  /** One row against the engine's valuation of the same record. */
  predicate RowMatches(r: Row, v: Data.Valuation) {
    && r.id == v.id
    && r.buy == ToFixed2(v.buy.perm3)
    && r.mineralsBuy == ToFixed2(v.buy.minerals)
    && r.perfectMineralsBuy == ToFixed2(v.buy.perfectMinerals)
    && r.sell == ToFixed2(v.sell.perm3)
    && r.mineralsSell == ToFixed2(v.sell.minerals)
    && r.perfectMineralsSell == ToFixed2(v.sell.perfectMinerals)
  }

  /** A row and the engine's valuation of the same record agree. */
  lemma RowOfMatchesValuate(index: Data.Index, pm: PriceMap, ore: CatalogueOre)
    requires Data.Valuable(index, pm, ore)
    ensures RowMatches(RowOf(index, pm, ore), Data.Valuate(index, pm, ore))
  {
  }

  /** The table agrees with the later engine: each figure is the engine's
      figure for the same record rounded to cents, the standard columns
      using 0.7 and the perfect columns 0.8934. */
  lemma RowsMatchDataFactory(catalogue: seq<CatalogueOre>, pm: PriceMap)
    requires Priced(catalogue, pm)
    ensures var rows := Rows(catalogue, pm);
            var v := Data.DataFactory(catalogue, Some(pm));
            && v.Some? && |v.value| == |rows|
            && forall i :: 0 <= i < |rows| ==>
                 && rows[i].id == v.value[i].id
                 && rows[i].buy == ToFixed2(v.value[i].buy.perm3)
                 && rows[i].mineralsBuy == ToFixed2(v.value[i].buy.minerals)
                 && rows[i].perfectMineralsBuy == ToFixed2(v.value[i].buy.perfectMinerals)
                 && rows[i].sell == ToFixed2(v.value[i].sell.perm3)
                 && rows[i].mineralsSell == ToFixed2(v.value[i].sell.minerals)
                 && rows[i].perfectMineralsSell == ToFixed2(v.value[i].sell.perfectMinerals)
  {
    var index := Data.IndexById(catalogue);
    var kept := Filter(catalogue, Data.Kept);
    var rows := Rows(catalogue, pm);
    var v := Data.DataFactory(catalogue, Some(pm)).value;
    forall i | 0 <= i < |rows|
      ensures RowMatches(rows[i], v[i])
    {
      assert kept[i] in kept;
      assert v[i] == Data.Valuate(index, pm, kept[i]);
      assert rows[i] == RowOf(index, pm, kept[i]);
      RowOfMatchesValuate(index, pm, kept[i]);
    }
  }

  /** The ids of every record followed by the ids of the mineral list. */
  function RequestIds(catalogue: seq<CatalogueOre>, mineralIds: seq<nat>): (ids: seq<nat>)
    ensures |ids| == |catalogue| + |mineralIds|
    ensures forall i :: 0 <= i < |catalogue| ==> ids[i] == catalogue[i].id
    ensures forall j :: 0 <= j < |mineralIds| ==> ids[|catalogue| + j] == mineralIds[j]
  {
    seq(|catalogue|, i requires 0 <= i < |catalogue| => catalogue[i].id) + mineralIds
  }

  /** The `types=` list of the price request: read back, it names every
      record and every listed mineral, in that order. */
  function PriceRequest(catalogue: seq<CatalogueOre>, mineralIds: seq<nat>): (types: string)
    ensures |catalogue| + |mineralIds| == 0 ==> types == ""
    ensures |catalogue| + |mineralIds| > 0 ==>
              var read := ReadTypeList(types);
              && |read| == |catalogue| + |mineralIds|
              && (forall i :: 0 <= i < |catalogue| ==> read[i] == Some(catalogue[i].id as int))
              && (forall j :: 0 <= j < |mineralIds| ==> read[|catalogue| + j] == Some(mineralIds[j] as int))
  {
    TypeList(RequestIds(catalogue, mineralIds))
  }

  /** What `App` renders: the error message first, then the loading
      message while no price map has arrived, then the table. */
  function Page(error: bool, pm: Option<PriceMap>, catalogue: seq<CatalogueOre>): (v: View<seq<Row>>)
    requires pm.Some? ==> Priced(catalogue, pm.value)
    ensures error ==> v.Failed?
    ensures !error && pm.None? ==> v.Loading?
    ensures !error && pm.Some? ==> v == Ready(Rows(catalogue, pm.value))
  {
    Render(error, if pm.Some? then Some(Rows(catalogue, pm.value)) else None)
  }
}
