/** The earlier data module src/data.tsx. Its `ores` index, `primaryOres`,
    `getOrePrice` and `getMineralsPrice` are the same definitions as in
    src/data.ts and are shared with module Data; what it adds is the
    initial state of the per-primary-ore filter. */
module LegacyData {
  import opened Collections
  import opened Types
  import opened FilterMaps
  import opened Data

  /** The property keys of the records' ids, in order. */
  function IdKeys(ores: seq<CatalogueOre>): (keys: seq<string>)
    ensures |keys| == |ores| && forall i :: 0 <= i < |ores| ==> keys[i] == IdKey(ores[i].id)
  {
    seq(|ores|, i requires 0 <= i < |ores| => IdKey(ores[i].id))
  }

  /** `initialState`: one enabled entry per primary ore, keyed by the
      decimal form of its id. */
  function InitialState(catalogue: seq<CatalogueOre>): (m: FilterMap)
    requires PrimariesPresent(catalogue)
    ensures forall k :: k in m ==> m[k]
  {
    AllEnabled(IdKeys(PrimaryOres(catalogue)))
  }

  /** A key of the initial state is the id of some record's primary ore. */
  lemma InitialKeySound(catalogue: seq<CatalogueOre>, k: string)
    requires PrimariesPresent(catalogue)
    requires k in InitialState(catalogue)
    ensures exists o :: o in catalogue && k == IdKey(o.primaryOreId)
  {
    var p := PrimaryOres(catalogue);
    var keys := IdKeys(p);
    assert k in keys;
    var i :| 0 <= i < |keys| && keys[i] == k;
    assert p[i] in p;
    PrimaryOreSound(catalogue, p[i]);
    var o :| o in catalogue && o.primaryOreId == p[i].id;
    assert k == IdKey(o.primaryOreId);
  }

  /** The id of every record's primary ore is a key of the initial state. */
  lemma InitialKeyComplete(catalogue: seq<CatalogueOre>, o: CatalogueOre)
    requires PrimariesPresent(catalogue)
    requires o in catalogue
    ensures IdKey(o.primaryOreId) in InitialState(catalogue)
  {
    var p := PrimaryOres(catalogue);
    var keys := IdKeys(p);
    var x := IndexById(catalogue)[o.primaryOreId];
    assert x in p by {
      PrimaryOresComplete(catalogue);
    }
    var i :| 0 <= i < |p| && p[i] == x;
    assert keys[i] == IdKey(o.primaryOreId);
    assert keys[i] in keys;
  }

  /** The keys of the initial state are exactly the primary ore ids of the
      catalogue: nothing else is enabled and nothing is missing. */
  lemma InitialStateKeys(catalogue: seq<CatalogueOre>)
    requires PrimariesPresent(catalogue)
    ensures InitialState(catalogue).Keys == set o | o in catalogue :: IdKey(o.primaryOreId)
  {
    var m := InitialState(catalogue);
    forall k | k in m ensures exists o :: o in catalogue && k == IdKey(o.primaryOreId) {
      InitialKeySound(catalogue, k);
    }
    forall o | o in catalogue ensures IdKey(o.primaryOreId) in m {
      InitialKeyComplete(catalogue, o);
    }
  }
}
