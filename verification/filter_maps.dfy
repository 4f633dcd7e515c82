/** The persisted filter state: four maps from a dimension value to an
    "included" flag. Reading a key that is not in a map yields `undefined`
    in the source, which every use treats as false. */
module FilterMaps {

  type FilterMap = map<string, bool>

  /** The four filter maps the table reads. */
  datatype Filters = Filters(
    ore: FilterMap,
    bonus: FilterMap,
    compressed: FilterMap,
    availability: FilterMap)

  /** `state[key]` used as a condition. */
  predicate Enabled(m: FilterMap, key: string) {
    key in m && m[key]
  }

  /** `{ ...prevState, [key]: !prevState[key] }`. */
  function Toggle(m: FilterMap, key: string): (r: FilterMap)
    ensures r.Keys == m.Keys + {key}
    ensures Enabled(r, key) == !Enabled(m, key)
    ensures forall k :: k != key ==> (k in r <==> k in m) && (k in m ==> r[k] == m[k])
  {
    m[key := !Enabled(m, key)]
  }

  /** Toggling a key twice restores it when it was present; a missing key
      becomes `true` on the first toggle and `false` on the second. */
  lemma ToggleTwice(m: FilterMap, key: string)
    ensures key in m ==> Toggle(Toggle(m, key), key) == m
    ensures key !in m ==> Toggle(m, key)[key] && Toggle(Toggle(m, key), key) == m[key := false]
  {
  }

  /** `keys.map(k => ({ [k]: true })).reduce((a, b) => ({ ...a, ...b }), {})`. */
  function AllEnabled(keys: seq<string>): (r: FilterMap)
    ensures r.Keys == set k | k in keys
    ensures forall k :: k in r ==> r[k]
  {
    if |keys| == 0 then map[]
    else
      var init := keys[..|keys| - 1];
      assert keys == init + [keys[|keys| - 1]];
      AllEnabled(init) + map[keys[|keys| - 1] := true]
  }
}
