/** The filter buttons of src/components/filter.tsx: one button per group,
    bonus and availability value plus the two compression buttons; each
    shows whether its key is enabled and flips exactly that key of exactly
    one filter map when clicked. */
module FilterPanel {
  import opened Types
  import opened FilterMaps
  import opened OreTable

  datatype Button = Button(key: string, enabled: bool)

  /** A group button's click: flips the group's key in the group map. */
  function ToggleGroup(f: Filters, g: OreGroup): (r: Filters)
    ensures r.bonus == f.bonus && r.compressed == f.compressed && r.availability == f.availability
    ensures Enabled(r.ore, g.name) == !Enabled(f.ore, g.name)
    ensures forall k :: k != g.name ==> Enabled(r.ore, k) == Enabled(f.ore, k)
  {
    f.(ore := Toggle(f.ore, g.name))
  }

  /** A bonus button's click: flips the bonus label's key. */
  function ToggleBonus(f: Filters, bonus: string): (r: Filters)
    ensures r.ore == f.ore && r.compressed == f.compressed && r.availability == f.availability
    ensures Enabled(r.bonus, bonus) == !Enabled(f.bonus, bonus)
    ensures forall k :: k != bonus ==> Enabled(r.bonus, k) == Enabled(f.bonus, k)
  {
    f.(bonus := Toggle(f.bonus, bonus))
  }

  /** The "Uncompressed" button's click: flips key "false". */
  function ToggleUncompressed(f: Filters): (r: Filters)
    ensures r.ore == f.ore && r.bonus == f.bonus && r.availability == f.availability
    ensures Enabled(r.compressed, "false") == !Enabled(f.compressed, "false")
    ensures forall k :: k != "false" ==> Enabled(r.compressed, k) == Enabled(f.compressed, k)
  {
    f.(compressed := Toggle(f.compressed, BoolKey(false)))
  }

  /** The "Compressed" button's click: flips key "true". */
  function ToggleCompressed(f: Filters): (r: Filters)
    ensures r.ore == f.ore && r.bonus == f.bonus && r.availability == f.availability
    ensures Enabled(r.compressed, "true") == !Enabled(f.compressed, "true")
    ensures forall k :: k != "true" ==> Enabled(r.compressed, k) == Enabled(f.compressed, k)
  {
    f.(compressed := Toggle(f.compressed, BoolKey(true)))
  }

  /** An availability button's click: flips the tag's key. */
  function ToggleAvailability(f: Filters, tag: string): (r: Filters)
    ensures r.ore == f.ore && r.bonus == f.bonus && r.compressed == f.compressed
    ensures Enabled(r.availability, tag) == !Enabled(f.availability, tag)
    ensures forall k :: k != tag ==> Enabled(r.availability, k) == Enabled(f.availability, k)
  {
    f.(availability := Toggle(f.availability, tag))
  }

  /** The buttons of the panel, each lit exactly when its key is enabled. */
  function GroupButtons(groups: seq<OreGroup>, f: Filters): (bs: seq<Button>)
    ensures |bs| == |groups|
    ensures forall i :: 0 <= i < |groups| ==> bs[i].key == groups[i].name && (bs[i].enabled <==> Enabled(f.ore, groups[i].name))
  {
    seq(|groups|, i requires 0 <= i < |groups| => Button(groups[i].name, Enabled(f.ore, groups[i].name)))
  }

  function BonusButtons(bonuses: seq<string>, f: Filters): (bs: seq<Button>)
    ensures |bs| == |bonuses|
    ensures forall i :: 0 <= i < |bonuses| ==> bs[i].key == bonuses[i] && (bs[i].enabled <==> Enabled(f.bonus, bonuses[i]))
  {
    seq(|bonuses|, i requires 0 <= i < |bonuses| => Button(bonuses[i], Enabled(f.bonus, bonuses[i])))
  }

  function CompressionButtons(f: Filters): (bs: seq<Button>)
    ensures |bs| == 2
    ensures bs[0].key == "false" && (bs[0].enabled <==> Enabled(f.compressed, "false"))
    ensures bs[1].key == "true" && (bs[1].enabled <==> Enabled(f.compressed, "true"))
  {
    [Button(BoolKey(false), Enabled(f.compressed, BoolKey(false))),
     Button(BoolKey(true), Enabled(f.compressed, BoolKey(true)))]
  }

  function AvailabilityButtons(tags: seq<string>, f: Filters): (bs: seq<Button>)
    ensures |bs| == |tags|
    ensures forall i :: 0 <= i < |tags| ==> bs[i].key == tags[i] && (bs[i].enabled <==> Enabled(f.availability, tags[i]))
  {
    seq(|tags|, i requires 0 <= i < |tags| => Button(tags[i], Enabled(f.availability, tags[i])))
  }

  /** Switching off an enabled group hides every row of that group and
      leaves every other row as it was. */
  lemma ToggleGroupHidesItsRows(rows: seq<OrePrice>, f: Filters, g: OreGroup)
    requires Enabled(f.ore, g.name)
    ensures forall x :: x in Visible(rows, ToggleGroup(f, g)) ==> x.group != g.name
    ensures forall x: OrePrice :: x.group != g.name ==> Shown(ToggleGroup(f, g), x) == Shown(f, x)
  {
  }

  /** Switching off "Compressed" while it is enabled hides exactly the
      compressed rows. */
  lemma ToggleCompressedHidesCompressed(rows: seq<OrePrice>, f: Filters)
    requires Enabled(f.compressed, "true")
    ensures forall x :: x in Visible(rows, ToggleCompressed(f)) <==> x in Visible(rows, f) && !x.compressed
  {
  }

  /** Clicking a button twice restores the filters, provided its key was
      present. */
  lemma ToggleGroupTwice(f: Filters, g: OreGroup)
    requires g.name in f.ore
    ensures ToggleGroup(ToggleGroup(f, g), g) == f
  {
    ToggleTwice(f.ore, g.name);
  }
}
