/** The column comparators of src/sortFunctions.ts over rows seen as maps
    from column name to value. */
module SortFunctions {

  /** `numericSort(key)(a, b) = a[key] - b[key]`: negative, zero or positive
      as `a` sorts before, with or after `b`. */
  function NumericSort(key: string, a: map<string, real>, b: map<string, real>): (r: real)
    requires key in a && key in b
    ensures r < 0.0 <==> a[key] < b[key]
    ensures r == 0.0 <==> a[key] == b[key]
    ensures r > 0.0 <==> a[key] > b[key]
  {
    a[key] - b[key]
  }

  /** Swapping the rows negates the comparison. */
  lemma NumericSortAntisymmetric(key: string, a: map<string, real>, b: map<string, real>)
    requires key in a && key in b
    ensures NumericSort(key, a, b) == -NumericSort(key, b, a)
  {
  }

  /** `localeSort(key)(a, b) = a[key].localeCompare(b[key])`, with the
      locale comparison given as `compare`. */
  function LocaleSort(compare: (string, string) -> int, key: string, a: map<string, string>, b: map<string, string>): (r: int)
    requires key in a && key in b
    ensures a[key] == b[key] && compare(a[key], a[key]) == 0 ==> r == 0
  {
    compare(a[key], b[key])
  }

  /** With an antisymmetric locale comparison, swapping the rows negates
      the result, as for `NumericSort`. */
  lemma LocaleSortAntisymmetric(compare: (string, string) -> int, key: string, a: map<string, string>, b: map<string, string>)
    requires key in a && key in b
    requires forall x, y :: compare(x, y) == -compare(y, x)
    ensures LocaleSort(compare, key, a, b) == -LocaleSort(compare, key, b, a)
  {
  }
}
