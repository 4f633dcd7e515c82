/** lodash `sortBy` with one iteratee: an insertion sort on a key. Keys
    are numbers, strings or `NaN`; numbers compare numerically, strings
    compare as JavaScript compares them, every number sorts before every
    string, and `NaN` sorts last. */
module Sorting {
  import opened Collections
  import opened Text

  datatype SortKey = Num(n: real) | Str(s: string) | NotANumber

  predicate KeyLe(a: SortKey, b: SortKey) {
    match (a, b)
    case (Num(x), Num(y)) => x <= y
    case (Str(x), Str(y)) => StrLe(x, y)
    case (_, NotANumber) => true
    case (NotANumber, _) => false
    case (Num(_), Str(_)) => true
    case (Str(_), Num(_)) => false
  }

  lemma KeyLeTotal(a: SortKey, b: SortKey)
    ensures KeyLe(a, b) || KeyLe(b, a)
  {
    if a.Str? && b.Str? {
      StrLeTotal(a.s, b.s);
    }
  }

  lemma KeyLeTransitive(a: SortKey, b: SortKey, c: SortKey)
    requires KeyLe(a, b) && KeyLe(b, c)
    ensures KeyLe(a, c)
  {
    if a.Str? && b.Str? && c.Str? {
      StrLeTransitive(a.s, b.s, c.s);
    }
  }

  predicate SortedBy<T>(s: seq<T>, key: T -> SortKey) {
    forall i, j :: 0 <= i < j < |s| ==> KeyLe(key(s[i]), key(s[j]))
  }

  /** In a sorted sequence an element whose key is strictly smaller comes
      first. */
  lemma SortedBefore<T>(s: seq<T>, key: T -> SortKey, i: nat, j: nat)
    requires SortedBy(s, key) && i < |s| && j < |s|
    requires !KeyLe(key(s[j]), key(s[i]))
    ensures i < j
  {
    if i == j {
      KeyLeTotal(key(s[i]), key(s[i]));
    }
  }

  /** Inserting at any position adds exactly one copy of `x`. */
  lemma InsertAtMultiset<T>(s: seq<T>, x: T, k: nat)
    requires k <= |s|
    ensures multiset(s[..k] + [x] + s[k..]) == multiset(s) + multiset{x}
  {
    assert s == s[..k] + s[k..];
  }

  /** Inserts `x` after every element whose key is not greater than its own. */
  function InsertBy<T(==)>(x: T, s: seq<T>, key: T -> SortKey): (r: seq<T>)
    ensures multiset(r) == multiset(s) + multiset{x}
    ensures exists k :: 0 <= k <= |s| && r == s[..k] + [x] + s[k..]
  {
    if |s| == 0 then
      assert [x] == s[..0] + [x] + s[0..];
      InsertAtMultiset(s, x, 0);
      [x]
    else if !KeyLe(key(s[0]), key(x)) then
      assert [x] + s == s[..0] + [x] + s[0..];
      InsertAtMultiset(s, x, 0);
      [x] + s
    else
      var tail := s[1..];
      var t := InsertBy(x, tail, key);
      var k :| 0 <= k <= |tail| && t == tail[..k] + [x] + tail[k..];
      assert s[..k + 1] == [s[0]] + tail[..k];
      assert s[k + 1..] == tail[k..];
      var r := [s[0]] + t;
      assert r == s[..k + 1] + [x] + s[k + 1..];
      InsertAtMultiset(s, x, k + 1);
      r
  }

  lemma {:induction false} InsertBySorted<T>(x: T, s: seq<T>, key: T -> SortKey)
    requires SortedBy(s, key)
    ensures SortedBy(InsertBy(x, s, key), key)
    decreases |s|
  {
    var r := InsertBy(x, s, key);
    if |s| > 0 {
      if !KeyLe(key(s[0]), key(x)) {
        KeyLeTotal(key(s[0]), key(x));
        forall j | 1 <= j < |r| ensures KeyLe(key(x), key(r[j])) {
          if j > 1 {
            KeyLeTransitive(key(x), key(s[0]), key(s[j - 1]));
          }
        }
      } else {
        var t := InsertBy(x, s[1..], key);
        InsertBySorted(x, s[1..], key);
        forall j | 0 < j < |r| ensures KeyLe(key(s[0]), key(r[j])) {
          assert r[j] in multiset(t);
          assert r[j] in multiset(s[1..]) || r[j] == x;
          if r[j] != x {
            var i :| 0 <= i < |s[1..]| && s[1..][i] == r[j];
            assert s[i + 1] == r[j];
          }
        }
      }
    }
  }

  /** lodash `sortBy(s, key)`: the elements of `s` reordered so that keys
      never decrease. */
  function SortBy<T(==)>(s: seq<T>, key: T -> SortKey): (r: seq<T>)
    ensures multiset(r) == multiset(s)
    ensures SortedBy(r, key)
  {
    if |s| == 0 then []
    else
      var t := SortBy(s[..|s| - 1], key);
      InsertBySorted(s[|s| - 1], t, key);
      assert s == s[..|s| - 1] + [s[|s| - 1]];
      InsertBy(s[|s| - 1], t, key)
  }

  lemma SortByElements<T>(s: seq<T>, key: T -> SortKey)
    ensures |SortBy(s, key)| == |s|
    ensures forall x :: x in SortBy(s, key) <==> x in s
  {
    var r := SortBy(s, key);
    assert |r| == |multiset(r)| == |multiset(s)| == |s|;
    forall x ensures x in r <==> x in s {
      assert x in r <==> x in multiset(r);
      assert x in s <==> x in multiset(s);
    }
  }

  lemma DistinctByInsertAt<T, K>(s: seq<T>, x: T, k: nat, f: T -> K)
    requires k <= |s| && DistinctBy(s, f)
    requires forall i :: 0 <= i < |s| ==> f(s[i]) != f(x)
    ensures DistinctBy(s[..k] + [x] + s[k..], f)
  {
    var r := s[..k] + [x] + s[k..];
    forall i, j | 0 <= i < j < |r| ensures f(r[i]) != f(r[j]) {
      if i < k && j > k {
        assert r[i] == s[i] && r[j] == s[j - 1];
      } else if j < k {
        assert r[i] == s[i] && r[j] == s[j];
      } else if i > k {
        assert r[i] == s[i - 1] && r[j] == s[j - 1];
      }
    }
  }

  /** Sorting a duplicate-free sequence leaves it duplicate-free. */
  lemma SortByDistinct<T>(s: seq<T>, key: T -> SortKey)
    requires Distinct(s)
    ensures Distinct(SortBy(s, key))
  {
    var id := (x: T) => x;
    assert DistinctBy(s, id);
    SortByDistinctBy(s, key, id);
    var r := SortBy(s, key);
    assert forall i, j :: 0 <= i < j < |r| ==> id(r[i]) != id(r[j]);
  }

  /** Sorting keeps elements apart that were apart by `f`. */
  lemma {:induction false} SortByDistinctBy<T, K>(s: seq<T>, key: T -> SortKey, f: T -> K)
    requires DistinctBy(s, f)
    ensures DistinctBy(SortBy(s, key), f)
    decreases |s|
  {
    if |s| > 0 {
      var init := s[..|s| - 1];
      var x := s[|s| - 1];
      var t := SortBy(init, key);
      assert SortBy(s, key) == InsertBy(x, t, key);
      assert DistinctBy(init, f) by {
        forall i, j | 0 <= i < j < |init| ensures f(init[i]) != f(init[j]) {
          assert init[i] == s[i] && init[j] == s[j];
        }
      }
      SortByDistinctBy(init, key, f);
      assert forall i :: 0 <= i < |t| ==> f(t[i]) != f(x) by {
        SortByElements(init, key);
        forall i | 0 <= i < |t| ensures f(t[i]) != f(x) {
          assert t[i] in init;
          var j :| 0 <= j < |init| && init[j] == t[i];
          assert s[j] == t[i];
        }
      }
      var k :| 0 <= k <= |t| && InsertBy(x, t, key) == t[..k] + [x] + t[k..];
      DistinctByInsertAt(t, x, k, f);
    }
  }
}
