/** The data shapes the pipeline passes around: the catalogue record of
    src/types.d.ts, the price feed, the table row and group of
    src/global.d.ts, and what a price-consuming view renders. */
module Types {
  import opened Collections
  import opened Text
  import opened MineralTable

  datatype Side = Buy | Sell

  /** One entry of the price feed, reduced to the `percentile` statistic of
      each side. */
  datatype Price = Price(buy: real, sell: real) {
    function Percentile(side: Side): real {
      if side == Buy then buy else sell
    }
  }

  /** The fetched price object, keyed by type id. */
  type PriceMap = map<string, Price>

  /** The property key of a numeric id: its decimal form. */
  function IdKey(id: nat): string {
    NatToString(id)
  }

  /** A catalogue record (`Ore` of src/types.d.ts). */
  datatype CatalogueOre = CatalogueOre(
    id: nat,
    volume: real,
    compressAmount: real,
    refineAmount: real,
    bonus: real,
    name: string,
    primaryOreId: nat,
    color: string,
    minerals: Entries)

  /** The four figures shown for one market side. */
  datatype BuySellPrice = BuySellPrice(
    perm3: real,
    individual: real,
    minerals: real,
    perfectMinerals: real)
  {
    function Field(field: PriceField): real {
      match field
      case Perm3 => perm3
      case Individual => individual
      case Minerals => minerals
      case PerfectMinerals => perfectMinerals
    }
  }

  datatype PriceField = Perm3 | Individual | Minerals | PerfectMinerals

  /** A table row (`OrePrice` of src/global.d.ts) together with the
      `compressed`, `asteroidType` and `availableIn` fields the table reads
      from it. */
  datatype OrePrice = OrePrice(
    id: nat,
    name: string,
    group: string,
    bonus: string,
    color: string,
    buy: BuySellPrice,
    sell: BuySellPrice,
    compressed: bool,
    asteroidType: string,
    availableIn: seq<string>)
  {
    function Prices(side: Side): BuySellPrice {
      if side == Buy then buy else sell
    }
  }

  /** `OreGroup` of src/global.d.ts. */
  datatype OreGroup = OreGroup(baseOreId: nat, color: string, name: string)

  /** What a view that waits for prices shows. */
  datatype View<T> = Failed | Loading | Ready(content: T)

  /** `if (error) failed; if (!data) loading; else content`: an error wins
      over present data, and missing data without an error is loading. */
  function Render<T>(error: bool, data: Option<T>): (v: View<T>)
    ensures v.Failed? <==> error
    ensures v.Loading? <==> !error && data.None?
    ensures v.Ready? <==> !error && data.Some?
    ensures v.Ready? ==> data == Some(v.content)
  {
    if error then Failed
    else if data.None? then Loading
    else Ready(data.value)
  }

  /** The `types=` parameter of the price URL: the ids, comma-joined. */
  function TypeList(ids: seq<nat>): (s: string)
    ensures |ids| == 0 ==> s == ""
    ensures |ids| > 0 ==> ReadTypeList(s) == seq(|ids|, i requires 0 <= i < |ids| => Some(ids[i] as int))
  {
    var keys := seq(|ids|, i requires 0 <= i < |ids| => IdKey(ids[i]));
    var s := Join(keys, ',');
    if |ids| > 0 then
      assert forall i :: 0 <= i < |keys| ==> ',' !in keys[i] by {
        forall i | 0 <= i < |keys| ensures ',' !in keys[i] {
          var k := keys[i];
          assert AllDigits(k);
        }
      }
      SplitJoin(keys, ',');
      forall i | 0 <= i < |ids| ensures ParseInt(keys[i]) == Some(ids[i] as int) {
        ParseIntOfNatToString(ids[i], "");
        assert keys[i] + "" == keys[i];
      }
      s
    else s
  }

  /** How the price service reads a `types=` list: split at commas, then
      `parseInt` each part. */
  function ReadTypeList(s: string): seq<Option<int>> {
    var parts := Split(s, ',');
    seq(|parts|, i requires 0 <= i < |parts| => ParseInt(parts[i]))
  }
}
