/** The price table of src/components/ore-table.tsx: the rows of the
    selected asteroid type, the filter choices derived from them, the row
    filter chain, the numeric column comparator and the error / loading /
    table decision. */
module OreTable {
  import opened Collections
  import opened Text
  import opened Sorting
  import opened Types
  import opened FilterMaps

  /** `filteredData`: the rows of asteroid type `t`, in order, each as
      often as it occurs in `rows`. */
  function FilterByType(rows: seq<OrePrice>, t: string): (r: seq<OrePrice>)
    ensures forall x :: x in r <==> x in rows && x.asteroidType == t
    ensures forall x :: multiset(r)[x] == if x.asteroidType == t then multiset(rows)[x] else 0
    ensures IsSubsequence(r, rows)
  {
    FilterIsSubsequence(rows, (x: OrePrice) => x.asteroidType == t);
    FilterMultiplicity(rows, (x: OrePrice) => x.asteroidType == t);
    Filter(rows, (x: OrePrice) => x.asteroidType == t)
  }

  /** The asteroid types split the rows: every row of one type is kept by
      that type and by no other, so the per-type tables never share a
      row. */
  lemma TypePartition(rows: seq<OrePrice>, t: string, u: string)
    requires t != u
    ensures forall x :: x in rows ==> x in FilterByType(rows, x.asteroidType)
    ensures forall x :: x in FilterByType(rows, t) ==> x !in FilterByType(rows, u)
  {
  }

  /** The group button a row contributes. */
  function GroupOf(row: OrePrice): OreGroup {
    OreGroup(row.id, row.color, row.group)
  }

  function GroupName(g: OreGroup): string { g.name }

  function GroupKey(g: OreGroup): SortKey { Str(g.name) }

  function Groups(rows: seq<OrePrice>): (gs: seq<OreGroup>)
    ensures |gs| == |rows| && forall i :: 0 <= i < |rows| ==> gs[i] == GroupOf(rows[i])
  {
    seq(|rows|, i requires 0 <= i < |rows| => GroupOf(rows[i]))
  }

  /** `filterGroups`: one group per distinct group name, sorted by name. */
  function FilterGroups(rows: seq<OrePrice>): (r: seq<OreGroup>)
    ensures SortedBy(r, GroupKey)
    ensures DistinctBy(r, GroupName)
  {
    var u := UniqBy(Groups(rows), GroupName);
    SortByDistinctBy(u, GroupKey, GroupName);
    SortBy(u, GroupKey)
  }

  /** The buttons are the deduplicated groups, reordered. */
  lemma FilterGroupsElements(rows: seq<OrePrice>)
    ensures forall g :: g in FilterGroups(rows) <==> g in UniqBy(Groups(rows), GroupName)
  {
    var u := UniqBy(Groups(rows), GroupName);
    assert FilterGroups(rows) == SortBy(u, GroupKey);
    SortByElements(u, GroupKey);
  }

  /** A row's group has a button. */
  lemma GroupCovered(rows: seq<OrePrice>, i: nat)
    requires i < |rows|
    ensures HasKey(FilterGroups(rows), GroupName, rows[i].group)
  {
    var gs := Groups(rows);
    var u := UniqBy(gs, GroupName);
    var r := FilterGroups(rows);
    assert GroupName(gs[i]) == rows[i].group;
    UniqByCoversAt(gs, GroupName, i);
    var j :| 0 <= j < |u| && GroupName(u[j]) == rows[i].group;
    assert u[j] in r by {
      FilterGroupsElements(rows);
    }
    var k :| 0 <= k < |r| && r[k] == u[j];
    assert GroupName(r[k]) == rows[i].group;
  }

  /** Every row's group has a button. */
  lemma FilterGroupsCover(rows: seq<OrePrice>)
    ensures forall x :: x in rows ==> HasKey(FilterGroups(rows), GroupName, x.group)
  {
    forall x | x in rows ensures HasKey(FilterGroups(rows), GroupName, x.group) {
      var i :| 0 <= i < |rows| && rows[i] == x;
      GroupCovered(rows, i);
    }
  }

  /** A group button takes its id and colour from the first row of its
      group. */
  lemma GroupFromFirstRow(rows: seq<OrePrice>, g: OreGroup)
    requires g in FilterGroups(rows)
    ensures exists i :: 0 <= i < |rows| && g == GroupOf(rows[i])
                        && forall j :: 0 <= j < i ==> rows[j].group != g.name
  {
    var gs := Groups(rows);
    var u := UniqBy(gs, GroupName);
    assert g in u by {
      FilterGroupsElements(rows);
    }
    var k :| 0 <= k < |u| && u[k] == g;
    assert HasKey(gs, GroupName, g.name) && g == FirstWithKey(gs, GroupName, g.name) by {
      UniqByKeepsFirst(gs, GroupName);
    }
    FirstWithKeyIsFirst(gs, GroupName, g.name);
    var i :| 0 <= i < |gs| && gs[i] == FirstWithKey(gs, GroupName, g.name) && GroupName(gs[i]) == g.name
             && forall j :: 0 <= j < i ==> GroupName(gs[j]) != g.name;
    assert forall j :: 0 <= j < i ==> rows[j].group != g.name by {
      forall j | 0 <= j < i ensures rows[j].group != g.name {
        assert GroupName(gs[j]) == rows[j].group;
      }
    }
  }

  /** Each button takes its id and colour from the first row of its
      group. */
  lemma FilterGroupsFromFirstRow(rows: seq<OrePrice>)
    ensures forall g :: g in FilterGroups(rows) ==>
              exists i :: 0 <= i < |rows| && g == GroupOf(rows[i])
                          && forall j :: 0 <= j < i ==> rows[j].group != g.name
  {
    forall g | g in FilterGroups(rows)
      ensures exists i :: 0 <= i < |rows| && g == GroupOf(rows[i])
                          && forall j :: 0 <= j < i ==> rows[j].group != g.name
    {
      GroupFromFirstRow(rows, g);
    }
  }

  /** The sort key of a bonus label: its `parseInt` value when it has one,
      the label itself otherwise. */
  function BonusKey(bonus: string): SortKey {
    match ParseInt(bonus)
    case Some(n) => Num(n as real)
    case None => Str(bonus)
  }

  /** `filterBonuses`: the distinct bonus labels, numeric ones by value. */
  function FilterBonuses(rows: seq<OrePrice>): (r: seq<string>)
    ensures SortedBy(r, BonusKey)
    ensures Distinct(r)
  {
    var u := Uniq(MapSeq(rows, (x: OrePrice) => x.bonus));
    SortByDistinct(u, BonusKey);
    SortBy(u, BonusKey)
  }

  /** The labels offered are exactly those of the rows. */
  lemma FilterBonusesExact(rows: seq<OrePrice>)
    ensures forall b :: b in FilterBonuses(rows) <==> exists x :: x in rows && x.bonus == b
  {
    var labels := MapSeq(rows, (x: OrePrice) => x.bonus);
    var u := Uniq(labels);
    assert FilterBonuses(rows) == SortBy(u, BonusKey);
    assert forall b :: b in FilterBonuses(rows) <==> b in labels by {
      SortByElements(u, BonusKey);
    }
    assert forall b :: b in labels ==> exists x :: x in rows && x.bonus == b by {
      forall b | b in labels ensures exists x :: x in rows && x.bonus == b {
        var i :| 0 <= i < |labels| && labels[i] == b;
        assert rows[i] in rows;
      }
    }
    assert forall x :: x in rows ==> x.bonus in labels by {
      forall x | x in rows ensures x.bonus in labels {
        var i :| 0 <= i < |rows| && rows[i] == x;
        assert labels[i] in labels;
      }
    }
  }

  /** Labels that parse to integers are offered in increasing order of
      their values. */
  lemma FilterBonusesNumericOrder(rows: seq<OrePrice>)
    ensures var r := FilterBonuses(rows);
            forall i, j ::
              (0 <= i < |r| && 0 <= j < |r| && ParseInt(r[i]).Some? && ParseInt(r[j]).Some?
               && ParseInt(r[i]).value < ParseInt(r[j]).value) ==> i < j
  {
    var r := FilterBonuses(rows);
    forall i, j | 0 <= i < |r| && 0 <= j < |r| && ParseInt(r[i]).Some? && ParseInt(r[j]).Some?
                  && ParseInt(r[i]).value < ParseInt(r[j]).value
      ensures i < j
    {
      NumericLabelBefore(r, i, j);
    }
  }

  /** In a list sorted by `BonusKey`, a label with a smaller integer value
      comes first. */
  lemma NumericLabelBefore(r: seq<string>, i: nat, j: nat)
    requires SortedBy(r, BonusKey) && i < |r| && j < |r|
    requires ParseInt(r[i]).Some? && ParseInt(r[j]).Some? && ParseInt(r[i]).value < ParseInt(r[j]).value
    ensures i < j
  {
    assert BonusKey(r[i]) == Num(ParseInt(r[i]).value as real);
    assert BonusKey(r[j]) == Num(ParseInt(r[j]).value as real);
    SortedBefore(r, BonusKey, i, j);
  }

  /** The sort key of an availability tag: for a tag starting with "R" the
      `parseInt` of the rest (`NaN` when it has no digits), for any other tag
      the tag itself. */
  function AvailabilityKey(tag: string): SortKey {
    if |tag| > 0 && tag[0] == 'R' then
      match ParseInt(tag[1..])
      case Some(n) => Num(n as real)
      case None => NotANumber
    else Str(tag)
  }

  function Tags(rows: seq<OrePrice>): (tags: seq<seq<string>>)
    ensures |tags| == |rows| && forall i :: 0 <= i < |rows| ==> tags[i] == rows[i].availableIn
  {
    seq(|rows|, i requires 0 <= i < |rows| => rows[i].availableIn)
  }

  /** `filterAvailability`: the distinct tags of all rows, sorted by
      `AvailabilityKey`. */
  function FilterAvailability(rows: seq<OrePrice>): (r: seq<string>)
    ensures SortedBy(r, AvailabilityKey)
    ensures Distinct(r)
  {
    var u := Uniq(Flatten(Tags(rows)));
    SortByDistinct(u, AvailabilityKey);
    SortBy(u, AvailabilityKey)
  }

  /** The tags offered are exactly those some row is available in. */
  lemma FilterAvailabilityExact(rows: seq<OrePrice>)
    ensures forall t :: t in FilterAvailability(rows) <==> exists x :: x in rows && t in x.availableIn
  {
    var tags := Tags(rows);
    SortByElements(Uniq(Flatten(tags)), AvailabilityKey);
    forall t | t in FilterAvailability(rows) ensures exists x :: x in rows && t in x.availableIn {
      var i :| 0 <= i < |tags| && t in tags[i];
      assert rows[i] in rows;
    }
    forall x, t | x in rows && t in x.availableIn ensures t in FilterAvailability(rows) {
      var i :| 0 <= i < |rows| && rows[i] == x;
      assert t in tags[i];
    }
  }

  /** "R" followed by the decimal form of `n` sorts by `n`. */
  lemma RegionKey(n: nat)
    ensures AvailabilityKey("R" + NatToString(n)) == Num(n as real)
  {
    ParseIntOfNatToString(n, "");
    assert ("R" + NatToString(n))[1..] == NatToString(n) + "";
  }

  lemma RegionTags()
    ensures "R" + NatToString(4) == "R4"
    ensures "R" + NatToString(16) == "R16"
    ensures "R" + NatToString(32) == "R32"
  {
    assert NatToString(16) == NatToString(1) + [DigitChar(6)];
    assert NatToString(32) == NatToString(3) + [DigitChar(2)];
  }

  /** Region tags are offered in numeric order: R4 before R16 before R32,
      although "R16" < "R32" < "R4" as strings. */
  lemma RegionsInNumericOrder(rows: seq<OrePrice>)
    ensures var r := FilterAvailability(rows);
            && (forall i, j :: 0 <= i < |r| && 0 <= j < |r| && r[i] == "R4" && r[j] == "R16" ==> i < j)
            && (forall j, k :: 0 <= j < |r| && 0 <= k < |r| && r[j] == "R16" && r[k] == "R32" ==> j < k)
  {
    var r := FilterAvailability(rows);
    RegionTags();
    RegionKey(4);
    RegionKey(16);
    RegionKey(32);
    forall i, j | 0 <= i < |r| && 0 <= j < |r| && r[i] == "R4" && r[j] == "R16" ensures i < j {
      SortedBefore(r, AvailabilityKey, i, j);
    }
    forall j, k | 0 <= j < |r| && 0 <= k < |r| && r[j] == "R16" && r[k] == "R32" ensures j < k {
      SortedBefore(r, AvailabilityKey, j, k);
    }
  }

  /** `ore.compressed.toString()`. */
  function BoolKey(b: bool): string {
    if b then "true" else "false"
  }

  /** `tags.some((t) => m[t])`. */
  predicate AnyEnabled(m: FilterMap, tags: seq<string>) {
    exists i :: 0 <= i < |tags| && Enabled(m, tags[i])
  }

  /** The row predicate: group, bonus and compression enabled, and at least
      one availability tag enabled. */
  predicate Shown(f: Filters, row: OrePrice) {
    && Enabled(f.ore, row.group)
    && Enabled(f.bonus, row.bonus)
    && Enabled(f.compressed, BoolKey(row.compressed))
    && AnyEnabled(f.availability, row.availableIn)
  }

  function ShownBy(f: Filters): OrePrice -> bool {
    (x: OrePrice) => Shown(f, x)
  }

  /** The four predicates of the chain, and the conjunctions of its first
      two and first three. */
  function ByGroup(f: Filters): OrePrice -> bool {
    (x: OrePrice) => Enabled(f.ore, x.group)
  }

  function ByBonus(f: Filters): OrePrice -> bool {
    (x: OrePrice) => Enabled(f.bonus, x.bonus)
  }

  function ByCompression(f: Filters): OrePrice -> bool {
    (x: OrePrice) => Enabled(f.compressed, BoolKey(x.compressed))
  }

  function ByAvailability(f: Filters): OrePrice -> bool {
    (x: OrePrice) => AnyEnabled(f.availability, x.availableIn)
  }

  function ByGroupBonus(f: Filters): OrePrice -> bool {
    (x: OrePrice) => Enabled(f.ore, x.group) && Enabled(f.bonus, x.bonus)
  }

  function ByGroupBonusCompression(f: Filters): OrePrice -> bool {
    (x: OrePrice) => Enabled(f.ore, x.group) && Enabled(f.bonus, x.bonus)
                     && Enabled(f.compressed, BoolKey(x.compressed))
  }

  /** The four chained `filter` calls that produce the table's data. */
  function Visible(rows: seq<OrePrice>, f: Filters): (r: seq<OrePrice>)
    ensures forall x :: x in r <==> x in rows && Shown(f, x)
    ensures forall x :: multiset(r)[x] == if Shown(f, x) then multiset(rows)[x] else 0
    ensures forall x :: x in r ==> |x.availableIn| > 0
  {
    var byGroup := Filter(rows, ByGroup(f));
    var byBonus := Filter(byGroup, ByBonus(f));
    var byCompression := Filter(byBonus, ByCompression(f));
    FilterMultiplicity(rows, ByGroup(f));
    FilterMultiplicity(byGroup, ByBonus(f));
    FilterMultiplicity(byBonus, ByCompression(f));
    FilterMultiplicity(byCompression, ByAvailability(f));
    Filter(byCompression, ByAvailability(f))
  }

  /** The chain is one filter on the conjunction, so the table shows an
      order-preserving subsequence of the rows. */
  lemma VisibleIsOneFilter(rows: seq<OrePrice>, f: Filters)
    ensures Visible(rows, f) == Filter(rows, ShownBy(f))
    ensures IsSubsequence(Visible(rows, f), rows)
  {
    FilterFilter(rows, ByGroup(f), ByBonus(f), ByGroupBonus(f));
    FilterFilter(rows, ByGroupBonus(f), ByCompression(f), ByGroupBonusCompression(f));
    FilterFilter(rows, ByGroupBonusCompression(f), ByAvailability(f), ShownBy(f));
    FilterIsSubsequence(rows, ShownBy(f));
  }

  /** `(a, b) => a[side][field] - b[side][field]`. */
  function NumericSort(side: Side, field: PriceField, a: OrePrice, b: OrePrice): (r: real)
    ensures r < 0.0 <==> a.Prices(side).Field(field) < b.Prices(side).Field(field)
    ensures r == 0.0 <==> a.Prices(side).Field(field) == b.Prices(side).Field(field)
    ensures r > 0.0 <==> a.Prices(side).Field(field) > b.Prices(side).Field(field)
  {
    a.Prices(side).Field(field) - b.Prices(side).Field(field)
  }

  /** Swapping the arguments negates the comparison. */
  lemma NumericSortAntisymmetric(side: Side, field: PriceField, a: OrePrice, b: OrePrice)
    ensures NumericSort(side, field, a, b) == -NumericSort(side, field, b, a)
  {
  }

  /** What the table component renders: the error message even when data
      is present, then the loading indicator while there is no data, then
      the visible rows of the selected type. */
  function Table(error: bool, data: Option<seq<OrePrice>>, t: string, f: Filters): (v: View<seq<OrePrice>>)
    ensures error ==> v.Failed?
    ensures !error && data.None? ==> v.Loading?
    ensures !error && data.Some? ==> v.Ready? && forall x :: x in v.content <==> x in data.value && x.asteroidType == t && Shown(f, x)
    ensures !error && data.Some? ==> v.Ready? && forall x ::
              multiset(v.content)[x] == if x.asteroidType == t && Shown(f, x) then multiset(data.value)[x] else 0
  {
    Render(error, if data.Some? then Some(Visible(FilterByType(data.value, t), f)) else None)
  }
}
