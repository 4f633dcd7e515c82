/** The earlier filter bar of src/filter.tsx: one button per primary ore,
    whose click flips the key of that ore's id in the ore filter map. */
module LegacyFilter {
  import opened Types
  import opened FilterMaps
  import Data
  import Text

  /** The click handler: flips the decimal id of `ore`. */
  function ToggleOre(state: FilterMap, ore: CatalogueOre): (r: FilterMap)
    ensures Enabled(r, IdKey(ore.id)) == !Enabled(state, IdKey(ore.id))
    ensures forall k :: k != IdKey(ore.id) ==> (k in r <==> k in state) && (k in state ==> r[k] == state[k])
  {
    Toggle(state, IdKey(ore.id))
  }

  /** Two clicks on the same button restore the state when the key was
      present, and leave it `false` when it was missing. */
  lemma ToggleOreTwice(state: FilterMap, ore: CatalogueOre)
    ensures IdKey(ore.id) in state ==> ToggleOre(ToggleOre(state, ore), ore) == state
    ensures IdKey(ore.id) !in state ==> ToggleOre(ToggleOre(state, ore), ore) == state[IdKey(ore.id) := false]
  {
    ToggleTwice(state, IdKey(ore.id));
  }

  /** Clicking one ore's button never changes another ore's button. */
  lemma ToggleOreIsolated(state: FilterMap, a: CatalogueOre, b: CatalogueOre)
    requires a.id != b.id
    ensures Enabled(ToggleOre(state, a), IdKey(b.id)) == Enabled(state, IdKey(b.id))
  {
    Text.NatToStringInjective(a.id, b.id);
  }

  datatype OreButton = OreButton(id: nat, color: string, enabled: bool)

  /** The bar: one button per primary ore in `primaryOres` order, carrying
      its id and color, lit when its key is enabled. */
  function Buttons(catalogue: seq<CatalogueOre>, state: FilterMap): (bs: seq<OreButton>)
    requires Data.PrimariesPresent(catalogue)
    ensures |bs| == |Data.PrimaryOres(catalogue)|
    ensures forall i :: 0 <= i < |bs| ==>
              bs[i].id == Data.PrimaryOres(catalogue)[i].id
              && bs[i].color == Data.PrimaryOres(catalogue)[i].color
              && (bs[i].enabled <==> Enabled(state, IdKey(Data.PrimaryOres(catalogue)[i].id)))
  {
    var p := Data.PrimaryOres(catalogue);
    seq(|p|, i requires 0 <= i < |p| => OreButton(p[i].id, p[i].color, Enabled(state, IdKey(p[i].id))))
  }

  /** Some button of `bs` carries `id`. */
  predicate HasButton(bs: seq<OreButton>, id: nat) {
    exists i :: 0 <= i < |bs| && bs[i].id == id
  }

  /** `id` is the primary ore id of some record. */
  predicate IsPrimaryId(catalogue: seq<CatalogueOre>, id: nat) {
    exists o :: o in catalogue && o.primaryOreId == id
  }

  /** A button's id is the primary ore id of some record. */
  lemma ButtonIdSound(catalogue: seq<CatalogueOre>, state: FilterMap, id: nat)
    requires Data.PrimariesPresent(catalogue)
    requires HasButton(Buttons(catalogue, state), id)
    ensures IsPrimaryId(catalogue, id)
  {
    var bs := Buttons(catalogue, state);
    var p := Data.PrimaryOres(catalogue);
    var i :| 0 <= i < |bs| && bs[i].id == id;
    assert p[i] in p;
    Data.PrimaryOreSound(catalogue, p[i]);
  }

  /** Every record's primary ore id has a button. */
  lemma ButtonIdComplete(catalogue: seq<CatalogueOre>, state: FilterMap, id: nat)
    requires Data.PrimariesPresent(catalogue)
    requires IsPrimaryId(catalogue, id)
    ensures HasButton(Buttons(catalogue, state), id)
  {
    var o :| o in catalogue && o.primaryOreId == id;
    var p := Data.PrimaryOres(catalogue);
    var x := Data.IndexById(catalogue)[id];
    assert x in p by {
      Data.PrimaryOresComplete(catalogue);
    }
    var i :| 0 <= i < |p| && p[i] == x;
    assert Buttons(catalogue, state)[i].id == id;
  }

  /** No two buttons carry the same id. */
  lemma ButtonIdsDistinct(catalogue: seq<CatalogueOre>, state: FilterMap)
    requires Data.PrimariesPresent(catalogue)
    ensures var bs := Buttons(catalogue, state);
            forall i, j :: 0 <= i < j < |bs| ==> bs[i].id != bs[j].id
  {
    var bs := Buttons(catalogue, state);
    var p := Data.PrimaryOres(catalogue);
    Data.PrimaryOresDistinct(catalogue);
    forall i, j | 0 <= i < j < |bs| ensures bs[i].id != bs[j].id {
      assert Data.IdOf(p[i]) != Data.IdOf(p[j]);
    }
  }

  /** The buttons' ids are exactly the primary ore ids of the catalogue. */
  lemma ButtonIds(catalogue: seq<CatalogueOre>, state: FilterMap)
    requires Data.PrimariesPresent(catalogue)
    ensures forall id :: HasButton(Buttons(catalogue, state), id) <==> IsPrimaryId(catalogue, id)
  {
    forall id ensures HasButton(Buttons(catalogue, state), id) <==> IsPrimaryId(catalogue, id) {
      if HasButton(Buttons(catalogue, state), id) {
        ButtonIdSound(catalogue, state, id);
      }
      if IsPrimaryId(catalogue, id) {
        ButtonIdComplete(catalogue, state, id);
      }
    }
  }
}
