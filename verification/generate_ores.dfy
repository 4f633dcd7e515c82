/** The catalogue generator of generate-ores.mjs: every ore of the nineteen
    mining groups is read from the static data export and enriched with its
    group's color and availability, a mining bonus derived from its ore
    type, its refining table and its compression ratio; ores with a bonus
    below 0.15 are written out. The database statements are given as
    lookup functions. */
module GenerateOres {
  import opened Collections
  import opened MineralTable

  /** One entry of the `GROUPS` table: inventory group id, display name,
      button color and the security classes the group is found in. */
  datatype GroupInfo = GroupInfo(id: nat, name: string, color: string, available: seq<string>)

  const Groups: seq<GroupInfo> := [
    GroupInfo(450, "Arkonor", "#c9aaae", ["nullsec"]),
    GroupInfo(451, "Bistot", "#5bda74", ["nullsec"]),
    GroupInfo(452, "Crokite", "#fada6b", ["lowsec", "nullsec"]),
    GroupInfo(453, "Dark Ochre", "#f7efc6", ["lowsec"]),
    GroupInfo(454, "Hedbergite", "#86d4e2", ["lowsec"]),
    GroupInfo(455, "Hemorphite", "#a4c6dd", ["lowsec"]),
    GroupInfo(456, "Jaspet", "#9cc09c", ["lowsec"]),
    GroupInfo(457, "Kernite", "#94dbd6", ["lowsec", "nullsec"]),
    GroupInfo(458, "Plagioclase", "#c5ebc5", ["highsec"]),
    GroupInfo(459, "Pyroxeres", "#f7efcb", ["highsec", "lowsec", "nullsec"]),
    GroupInfo(460, "Scordite", "#c1c9bc", ["highsec"]),
    GroupInfo(461, "Spodumain", "#ced77c", ["lowsec"]),
    GroupInfo(462, "Veldspar", "#d3b871", ["highsec"]),
    GroupInfo(467, "Gneiss", "#8cfb9d", ["lowsec"]),
    GroupInfo(468, "Mercoxit", "#de8d63", ["nullsec"]),
    GroupInfo(469, "Omber", "#fffb9d", ["lowsec", "nullsec"]),
    GroupInfo(4029, "Talassonite", "#c38553", ["triglavian"]),
    GroupInfo(4030, "Rakovene", "#7da4a8", ["triglavian"]),
    GroupInfo(4031, "Bezdnacine", "#c3bca8", ["triglavian"])
  ]

  /** `GROUPS.get(id)`: a `Map` built from pairs keeps the last value given
      for a key. */
  function LookupGroup(gs: seq<GroupInfo>, id: nat): (r: Option<GroupInfo>)
    ensures r.Some? <==> exists i :: 0 <= i < |gs| && gs[i].id == id
    ensures r.Some? ==> r.value.id == id && r.value in gs
  {
    if |gs| == 0 then None
    else if gs[|gs| - 1].id == id then Some(gs[|gs| - 1])
    else
      var r := LookupGroup(gs[..|gs| - 1], id);
      assert forall i :: 0 <= i < |gs| - 1 ==> gs[..|gs| - 1][i] == gs[i];
      r
  }

  /** With distinct ids the lookup of an entry's id is that entry. */
  lemma {:induction false} LookupGroupDistinct(gs: seq<GroupInfo>, i: nat)
    requires i < |gs|
    requires forall a, b :: 0 <= a < b < |gs| ==> gs[a].id != gs[b].id
    ensures LookupGroup(gs, gs[i].id) == Some(gs[i])
    decreases |gs|
  {
    if i < |gs| - 1 {
      LookupGroupDistinct(gs[..|gs| - 1], i);
    }
  }

  lemma GroupIdsDistinct()
    ensures forall a, b :: 0 <= a < b < |Groups| ==> Groups[a].id != Groups[b].id
  {
  }

  /** A row of the ore query: an ore type of the group, with its volume and
      portion size. */
  datatype RawOre = RawOre(id: nat, name: string, volume: real, refineAmount: real)

  /** A row of the materials query. */
  datatype Material = Material(materialTypeId: nat, quantity: real)

  /** The prepared statements, as lookups. `None` stands for the
      `undefined` a `.get` returns when no row matches. */
  datatype Db = Db(
    oresInGroup: nat -> seq<RawOre>,
    groupName: nat -> Option<string>,
    oreType: nat -> Option<real>,
    materials: nat -> seq<Material>,
    compressesFrom: nat -> Option<nat>,
    compression: nat -> Option<real>)

  /** An ore of the group with the query's `groupId` column. */
  datatype GroupedOre = GroupedOre(groupId: nat, ore: RawOre)

  function InGroup(g: GroupInfo, rows: seq<RawOre>): (r: seq<GroupedOre>)
    ensures |r| == |rows|
    ensures forall i :: 0 <= i < |rows| ==> r[i] == GroupedOre(g.id, rows[i])
  {
    seq(|rows|, i requires 0 <= i < |rows| => GroupedOre(g.id, rows[i]))
  }

  /** Each group's ore rows, tagged with the group's id, group by group. */
  function PerGroup(gs: seq<GroupInfo>, db: Db): (r: seq<seq<GroupedOre>>)
    ensures |r| == |gs| && forall i :: 0 <= i < |gs| ==> r[i] == InGroup(gs[i], db.oresInGroup(gs[i].id))
  {
    seq(|gs|, i requires 0 <= i < |gs| => InGroup(gs[i], db.oresInGroup(gs[i].id)))
  }

  /** An item of the group-by-group rows comes from the query of a group of
      `gs` and carries that group's id. */
  lemma PerGroupSound(gs: seq<GroupInfo>, db: Db, x: GroupedOre)
    requires x in Flatten(PerGroup(gs, db))
    ensures exists i :: 0 <= i < |gs| && x.groupId == gs[i].id && x.ore in db.oresInGroup(gs[i].id)
  {
    var perGroup := PerGroup(gs, db);
    var i :| 0 <= i < |perGroup| && x in perGroup[i];
    var rows := db.oresInGroup(gs[i].id);
    var k :| 0 <= k < |rows| && perGroup[i][k] == x;
    assert x.groupId == gs[i].id && x.ore == rows[k];
  }

  /** `flatMap` over the group table `gs` of each group's ore rows, tagged
      with the group's id: every item is a row of its group's query, and
      every row of every group's query is there. */
  function ExtractFrom(gs: seq<GroupInfo>, db: Db): (r: seq<GroupedOre>)
    ensures forall x :: x in r ==> exists i :: 0 <= i < |gs| && x.groupId == gs[i].id && x.ore in db.oresInGroup(gs[i].id)
    ensures forall x :: x in r ==> LookupGroup(gs, x.groupId).Some?
    ensures forall i, o :: 0 <= i < |gs| && o in db.oresInGroup(gs[i].id) ==> GroupedOre(gs[i].id, o) in r
  {
    var perGroup := PerGroup(gs, db);
    var r := Flatten(perGroup);
    forall x | x in r
      ensures exists i :: 0 <= i < |gs| && x.groupId == gs[i].id && x.ore in db.oresInGroup(gs[i].id)
      ensures LookupGroup(gs, x.groupId).Some?
    {
      PerGroupSound(gs, db, x);
    }
    forall i, o | 0 <= i < |gs| && o in db.oresInGroup(gs[i].id)
      ensures GroupedOre(gs[i].id, o) in r
    {
      var rows := db.oresInGroup(gs[i].id);
      var k :| 0 <= k < |rows| && rows[k] == o;
      assert perGroup[i][k] == GroupedOre(gs[i].id, o);
    }
    r
  }

  /** The rows of a one-group table are that group's query rows, in order. */
  lemma ExtractFromSingle(g: GroupInfo, db: Db)
    ensures ExtractFrom([g], db) == InGroup(g, db.oresInGroup(g.id))
  {
    var one := PerGroup([g], db);
    assert one[..0] == [];
    assert Flatten(one) == Flatten([]) + one[0];
  }

  /** `flatMap` goes group by group: the rows of a concatenated table are
      the rows of the first part followed by those of the second. */
  lemma ExtractFromAppend(gs1: seq<GroupInfo>, gs2: seq<GroupInfo>, db: Db)
    ensures ExtractFrom(gs1 + gs2, db) == ExtractFrom(gs1, db) + ExtractFrom(gs2, db)
  {
    assert PerGroup(gs1 + gs2, db) == PerGroup(gs1, db) + PerGroup(gs2, db);
    FlattenAppend(PerGroup(gs1, db), PerGroup(gs2, db));
  }

  /** The rows of the group at position `k` form one contiguous block, after
      the rows of every earlier group and before those of every later one. */
  lemma ExtractFromBlock(gs: seq<GroupInfo>, db: Db, k: nat)
    requires k < |gs|
    ensures ExtractFrom(gs, db)
            == ExtractFrom(gs[..k], db) + InGroup(gs[k], db.oresInGroup(gs[k].id)) + ExtractFrom(gs[k + 1..], db)
  {
    var before, rest, after := gs[..k], [gs[k]] + gs[k + 1..], gs[k + 1..];
    assert gs == before + rest;
    var a, b, c := ExtractFrom(before, db), ExtractFrom([gs[k]], db), ExtractFrom(after, db);
    ExtractFromAppend(before, rest, db);
    ExtractFromAppend([gs[k]], after, db);
    ExtractFromSingle(gs[k], db);
    assert ExtractFrom(gs, db) == a + (b + c);
  }

  /** `Array.from(GROUPS.keys()).flatMap(id => getOresStmt.all(id))`. */
  function Extract(db: Db): (r: seq<GroupedOre>)
    ensures forall x :: x in r ==> exists i :: 0 <= i < |Groups| && x.groupId == Groups[i].id && x.ore in db.oresInGroup(Groups[i].id)
    ensures forall x :: x in r ==> LookupGroup(Groups, x.groupId).Some?
    ensures forall i, o :: 0 <= i < |Groups| && o in db.oresInGroup(Groups[i].id) ==> GroupedOre(Groups[i].id, o) in r
  {
    ExtractFrom(Groups, db)
  }

  /** The ores are extracted group by group, in the order of the group
      table: group `k`'s rows form one block between the earlier and the
      later groups' rows. */
  lemma ExtractGroupByGroup(db: Db, k: nat)
    requires k < |Groups|
    ensures Extract(db)
            == ExtractFrom(Groups[..k], db) + InGroup(Groups[k], db.oresInGroup(Groups[k].id)) + ExtractFrom(Groups[k + 1..], db)
  {
    ExtractFromBlock(Groups, db, k);
  }

  /** The `switch (oreType)` on the ore-type attribute: types 1 to 4 give
      bonuses 0, 0.05, 0.1 and 0.15; any other value leaves the bonus unset. */
  function BonusForOreType(oreType: Option<real>): (r: Option<real>)
    ensures r.Some? <==> oreType.Some? && (oreType.value == 1.0 || oreType.value == 2.0 || oreType.value == 3.0 || oreType.value == 4.0)
    ensures r.Some? ==> r.value == (oreType.value - 1.0) * 0.05
  {
    match oreType
    case None => None
    case Some(t) =>
      if t == 1.0 then Some(0.0)
      else if t == 2.0 then Some(0.05)
      else if t == 3.0 then Some(0.1)
      else if t == 4.0 then Some(0.15)
      else None
  }

  predicate StartsWith(s: string, prefix: string) {
    |prefix| <= |s| && s[..|prefix|] == prefix
  }

  /** The correction for Triglavian ores: an "Abyssal " ore whose bonus came
      out as 0 gets 0.05, a "Hadal " one gets 0.1. */
  function TriglavianFix(name: string, bonus: Option<real>): (r: Option<real>)
    ensures bonus != Some(0.0) ==> r == bonus
    ensures bonus == Some(0.0) && StartsWith(name, "Abyssal ") ==> r == Some(0.05)
    ensures bonus == Some(0.0) && !StartsWith(name, "Abyssal ") && StartsWith(name, "Hadal ") ==> r == Some(0.1)
    ensures bonus == Some(0.0) && !StartsWith(name, "Abyssal ") && !StartsWith(name, "Hadal ") ==> r == Some(0.0)
  {
    if StartsWith(name, "Abyssal ") && bonus == Some(0.0) then Some(0.05)
    else if StartsWith(name, "Hadal ") && bonus == Some(0.0) then Some(0.1)
    else bonus
  }

  /** The bonus after the correction is still one of the four table values,
      and only ever raised. */
  lemma BonusValues(oreType: Option<real>, name: string)
    ensures var b := TriglavianFix(name, BonusForOreType(oreType));
            b.Some? ==> (b.value == 0.0 || b.value == 0.05 || b.value == 0.1 || b.value == 0.15)
                        && b.value >= BonusForOreType(oreType).value
  {
  }

  function MaterialIds(rows: seq<Material>): set<nat> {
    set i | 0 <= i < |rows| :: rows[i].materialTypeId
  }

  /** The `reduce` that turns the material rows into the `minerals` object:
      its keys are exactly the material ids of the rows. */
  function MineralsOf(rows: seq<Material>): (r: Entries)
    ensures KeysAscending(r)
    ensures KeySet(r) == MaterialIds(rows)
  {
    if |rows| == 0 then []
    else
      var init := rows[..|rows| - 1];
      var last := rows[|rows| - 1];
      assert MaterialIds(rows) == MaterialIds(init) + {last.materialTypeId} by {
        forall x | x in MaterialIds(rows) ensures x in MaterialIds(init) + {last.materialTypeId} {
          var i :| 0 <= i < |rows| && rows[i].materialTypeId == x;
          if i < |init| { assert init[i] == rows[i]; }
        }
        forall x | x in MaterialIds(init) ensures x in MaterialIds(rows) {
          var i :| 0 <= i < |init| && init[i].materialTypeId == x;
          assert rows[i] == init[i];
        }
      }
      Put(MineralsOf(init), last.materialTypeId, last.quantity)
  }

  /** A mineral reads the quantity of the last row naming it: later rows
      overwrite earlier ones. */
  lemma {:induction false} MineralsOfLastWins(rows: seq<Material>, i: nat)
    requires i < |rows|
    requires forall j :: i < j < |rows| ==> rows[j].materialTypeId != rows[i].materialTypeId
    ensures MineralTable.Get(MineralsOf(rows), rows[i].materialTypeId) == Some(rows[i].quantity)
    decreases |rows|
  {
    var init := rows[..|rows| - 1];
    var last := rows[|rows| - 1];
    var k := rows[i].materialTypeId;
    PutGet(MineralsOf(init), last.materialTypeId, last.quantity, k);
    if i < |rows| - 1 {
      assert init[i] == rows[i];
      assert forall j :: i < j < |init| ==> init[j] == rows[j];
      MineralsOfLastWins(init, i);
    }
  }

  /** `(compressesFrom && getCompression(compressesFrom)) || 1`: the looked
      up ratio when there is a compression source with a non-zero id and a
      non-zero ratio, otherwise 1. */
  function CompressAmount(compressesFrom: Option<nat>, compression: nat -> Option<real>): (r: real)
    ensures r != 0.0
    ensures r != 1.0 ==> compressesFrom.Some? && compressesFrom.value != 0 && compression(compressesFrom.value) == Some(r)
    ensures (compressesFrom.Some? && compressesFrom.value != 0 && compression(compressesFrom.value).Some?
             && compression(compressesFrom.value).value != 0.0) ==> r == compression(compressesFrom.value).value
  {
    match compressesFrom
    case None => 1.0
    case Some(from) =>
      if from == 0 then 1.0
      else
        match compression(from)
        case None => 1.0
        case Some(v) => if v == 0.0 then 1.0 else v
  }

  /** With ratios of at least 1 in the database, every compress amount is
      at least 1; with positive ratios, it is positive. */
  lemma CompressAmountBounds(compressesFrom: Option<nat>, compression: nat -> Option<real>)
    ensures (forall n :: compression(n).Some? ==> compression(n).value >= 1.0) ==> CompressAmount(compressesFrom, compression) >= 1.0
    ensures (forall n :: compression(n).Some? ==> compression(n).value > 0.0) ==> CompressAmount(compressesFrom, compression) > 0.0
  {
  }

  /** An ore after the `forEach` enrichment. */
  datatype EnrichedOre = EnrichedOre(
    id: nat,
    groupId: nat,
    name: string,
    volume: real,
    refineAmount: real,
    color: string,
    groupName: Option<string>,
    bonus: Option<real>,
    minerals: Entries,
    availableIn: seq<string>,
    compressesFrom: Option<nat>,
    compressAmount: real)

  /** The body of the `forEach`: every field except the query's own is
      taken from the group table `gs` or the lookups. */
  function Enrich(gs: seq<GroupInfo>, db: Db, x: GroupedOre): (r: EnrichedOre)
    requires LookupGroup(gs, x.groupId).Some?
    ensures r.id == x.ore.id && r.groupId == x.groupId && r.name == x.ore.name
    ensures r.volume == x.ore.volume && r.refineAmount == x.ore.refineAmount
    ensures r.color == LookupGroup(gs, x.groupId).value.color
    ensures r.availableIn == LookupGroup(gs, x.groupId).value.available
    ensures r.groupName == db.groupName(x.groupId)
    ensures r.bonus == TriglavianFix(x.ore.name, BonusForOreType(db.oreType(x.ore.id)))
    ensures r.minerals == MineralsOf(db.materials(x.ore.id))
    ensures r.compressesFrom == db.compressesFrom(x.ore.id)
    ensures r.compressAmount == CompressAmount(db.compressesFrom(x.ore.id), db.compression)
  {
    var g := LookupGroup(gs, x.groupId).value;
    EnrichedOre(
      x.ore.id, x.groupId, x.ore.name, x.ore.volume, x.ore.refineAmount,
      g.color, db.groupName(x.groupId),
      TriglavianFix(x.ore.name, BonusForOreType(db.oreType(x.ore.id))),
      MineralsOf(db.materials(x.ore.id)),
      g.available,
      db.compressesFrom(x.ore.id),
      CompressAmount(db.compressesFrom(x.ore.id), db.compression))
  }

  /** `ore.bonus < 0.15`, where an unset bonus compares false. */
  predicate Written(o: EnrichedOre) {
    o.bonus.Some? && o.bonus.value < 0.15
  }

  function EnrichAll(db: Db): (r: seq<EnrichedOre>)
    ensures |r| == |Extract(db)|
    ensures forall i :: 0 <= i < |r| ==> r[i] == Enrich(Groups, db, Extract(db)[i])
  {
    var xs := Extract(db);
    seq(|xs|, i requires 0 <= i < |xs| => Enrich(Groups, db, xs[i]))
  }

  /** The list written to the catalogue file. */
  function Generate(db: Db): (r: seq<EnrichedOre>)
    ensures forall o :: o in r <==> o in EnrichAll(db) && Written(o)
    ensures forall o :: multiset(r)[o] == if Written(o) then multiset(EnrichAll(db))[o] else 0
    ensures IsSubsequence(r, EnrichAll(db))
  {
    FilterIsSubsequence(EnrichAll(db), Written);
    FilterMultiplicity(EnrichAll(db), Written);
    Filter(EnrichAll(db), Written)
  }

  /** Every written ore has a bonus of 0, 0.05 or 0.1: ores of bonus 0.15
      and ores of an unknown type are dropped. */
  lemma WrittenBonuses(db: Db)
    ensures forall o :: o in Generate(db) ==> o.bonus == Some(0.0) || o.bonus == Some(0.05) || o.bonus == Some(0.1)
  {
    forall o | o in Generate(db)
      ensures o.bonus == Some(0.0) || o.bonus == Some(0.05) || o.bonus == Some(0.1)
    {
      var xs := Extract(db);
      var i :| 0 <= i < |EnrichAll(db)| && EnrichAll(db)[i] == o;
      BonusValues(db.oreType(xs[i].ore.id), xs[i].ore.name);
    }
  }

  /** Looking up the id of an entry of the group table gives that entry. */
  lemma LookupGroupTable(i: nat)
    requires i < |Groups|
    ensures LookupGroup(Groups, Groups[i].id) == Some(Groups[i])
  {
    GroupIdsDistinct();
    LookupGroupDistinct(Groups, i);
  }

  /** Every written ore carries the color and availability of the group
      table's entry for its group id. */
  lemma WrittenGroupFields(db: Db)
    ensures forall o :: o in Generate(db) ==>
              LookupGroup(Groups, o.groupId).Some?
              && o.color == LookupGroup(Groups, o.groupId).value.color
              && o.availableIn == LookupGroup(Groups, o.groupId).value.available
  {
    forall o | o in Generate(db)
      ensures LookupGroup(Groups, o.groupId).Some?
              && o.color == LookupGroup(Groups, o.groupId).value.color
              && o.availableIn == LookupGroup(Groups, o.groupId).value.available
    {
      var xs := Extract(db);
      var k :| 0 <= k < |EnrichAll(db)| && EnrichAll(db)[k] == o;
      var x := xs[k];
      assert x in xs;
      assert o == Enrich(Groups, db, x);
    }
  }
}
