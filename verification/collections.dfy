/** Sequence helpers that stand in for the array and lodash operations the
    front end uses: `Array.prototype.filter`, `flatMap`, lodash `uniq` and
    `uniqBy`. Each is defined once here and reused by every module. */
module Collections {

  datatype Option<+T> = None | Some(value: T)

  /** `a` can be obtained from `b` by deleting elements, keeping order. */
  predicate IsSubsequence<T(==)>(a: seq<T>, b: seq<T>)
    decreases |b|
  {
    |a| == 0 ||
    (|b| > 0 &&
     ((a[|a| - 1] == b[|b| - 1] && IsSubsequence(a[..|a| - 1], b[..|b| - 1])) ||
      IsSubsequence(a, b[..|b| - 1])))
  }

  predicate Distinct<T(==)>(s: seq<T>) {
    forall i, j :: 0 <= i < j < |s| ==> s[i] != s[j]
  }

  /** No two elements share the same `f` value. */
  predicate DistinctBy<T, K(==)>(s: seq<T>, f: T -> K) {
    forall i, j :: 0 <= i < j < |s| ==> f(s[i]) != f(s[j])
  }

  /** `Array.prototype.filter`: the elements satisfying `p`, in order. */
  function Filter<T(!new)>(s: seq<T>, p: T -> bool): (r: seq<T>)
    ensures |r| <= |s|
    ensures forall x :: x in r <==> x in s && p(x)
  {
    if |s| == 0 then []
    else
      var rest := Filter(s[..|s| - 1], p);
      assert s == s[..|s| - 1] + [s[|s| - 1]];
      if p(s[|s| - 1]) then rest + [s[|s| - 1]] else rest
  }

  /** Filtering keeps every element satisfying `p` as often as it occurs
      in `s`, and drops every other element. */
  lemma {:induction false} FilterMultiplicity<T(!new)>(s: seq<T>, p: T -> bool)
    ensures forall x :: multiset(Filter(s, p))[x] == if p(x) then multiset(s)[x] else 0
    decreases |s|
  {
    if |s| > 0 {
      var init := s[..|s| - 1];
      FilterMultiplicity(init, p);
      assert s == init + [s[|s| - 1]];
    }
  }

  lemma {:induction false} FilterIsSubsequence<T(!new)>(s: seq<T>, p: T -> bool)
    ensures IsSubsequence(Filter(s, p), s)
    decreases |s|
  {
    if |s| > 0 {
      FilterIsSubsequence(s[..|s| - 1], p);
    }
  }

  /** Two successive filters keep exactly what one filter on the
      conjunction `pq` keeps, in the same order. */
  lemma {:induction false} FilterFilter<T(!new)>(s: seq<T>, p: T -> bool, q: T -> bool, pq: T -> bool)
    requires forall x :: pq(x) == (p(x) && q(x))
    ensures Filter(Filter(s, p), q) == Filter(s, pq)
    decreases |s|
  {
    if |s| > 0 {
      var init := s[..|s| - 1];
      var x := s[|s| - 1];
      FilterFilter(init, p, q, pq);
      if p(x) {
        assert Filter(s, p)[..|Filter(s, p)| - 1] == Filter(init, p);
      }
    }
  }

  /** Filtering commutes with dropping the last element. */
  lemma FilterAppend<T(!new)>(s: seq<T>, x: T, p: T -> bool)
    ensures Filter(s + [x], p) == if p(x) then Filter(s, p) + [x] else Filter(s, p)
  {
    assert (s + [x])[..|s + [x]| - 1] == s;
  }

  /** `Array.prototype.map`: `f` applied to every element, in order. */
  function MapSeq<T, U>(s: seq<T>, f: T -> U): (r: seq<U>)
    ensures |r| == |s| && forall i :: 0 <= i < |s| ==> r[i] == f(s[i])
  {
    seq(|s|, i requires 0 <= i < |s| => f(s[i]))
  }

  /** Concatenation of a sequence of sequences (`flatMap` after `map`). */
  function Flatten<T>(ss: seq<seq<T>>): (r: seq<T>)
    ensures forall i, x :: 0 <= i < |ss| && x in ss[i] ==> x in r
    ensures forall x :: x in r ==> exists i :: 0 <= i < |ss| && x in ss[i]
  {
    if |ss| == 0 then []
    else
      var init := ss[..|ss| - 1];
      var rest := Flatten(init);
      assert forall i :: 0 <= i < |init| ==> init[i] == ss[i];
      rest + ss[|ss| - 1]
  }

  /** Flattening distributes over concatenation. */
  lemma {:induction false} FlattenAppend<T>(a: seq<seq<T>>, b: seq<seq<T>>)
    ensures Flatten(a + b) == Flatten(a) + Flatten(b)
    decreases |b|
  {
    if |b| == 0 {
      assert a + b == a;
    } else {
      var init := b[..|b| - 1];
      var last := b[|b| - 1];
      FlattenAppend(a, init);
      assert (a + b)[..|a + b| - 1] == a + init && (a + b)[|a + b| - 1] == last;
      assert b[..|b| - 1] == init;
      calc {
        Flatten(a + b);
        Flatten(a + init) + last;
        (Flatten(a) + Flatten(init)) + last;
        Flatten(a) + (Flatten(init) + last);
      }
    }
  }

  /** True when some element of `s` has key `k`. */
  predicate HasKey<T, K(==)>(s: seq<T>, f: T -> K, k: K) {
    exists i :: 0 <= i < |s| && f(s[i]) == k
  }

  /** The position of the first element of `s` with key `k`, or `|s|` when
      there is none. */
  function FirstKeyIndex<T, K(==)>(s: seq<T>, f: T -> K, k: K): (n: nat)
    ensures n <= |s|
    ensures n < |s| <==> HasKey(s, f, k)
    ensures n < |s| ==> f(s[n]) == k
    ensures forall j :: 0 <= j < n ==> f(s[j]) != k
    decreases |s|
  {
    if |s| == 0 then 0
    else
      var init := s[..|s| - 1];
      var m := FirstKeyIndex(init, f, k);
      assert forall j :: 0 <= j < |init| ==> s[j] == init[j];
      if m < |init| then m
      else if f(s[|s| - 1]) == k then |s| - 1
      else
        |s|
  }

  /** lodash `uniqBy`: the first element for each distinct key, in order of
      first appearance. */
  function UniqBy<T, K(==)>(s: seq<T>, f: T -> K): (r: seq<T>)
    ensures DistinctBy(r, f)
    ensures IsSubsequence(r, s)
  {
    if |s| == 0 then []
    else
      var u := UniqBy(s[..|s| - 1], f);
      var x := s[|s| - 1];
      if HasKey(u, f, f(x)) then u
      else
        var r := u + [x];
        assert r[..|r| - 1] == u;
        r
  }

  /** A key found in a prefix is found in the whole sequence. */
  lemma HasKeyPrefix<T, K>(u: seq<T>, r: seq<T>, f: T -> K, k: K)
    requires |u| <= |r| && r[..|u|] == u
    requires HasKey(u, f, k)
    ensures HasKey(r, f, k)
  {
    var j :| 0 <= j < |u| && f(u[j]) == k;
    assert r[j] == u[j];
  }

  /** `UniqBy` extends the result for the prefix: by nothing when the last
      key was already seen, by the last element otherwise. */
  lemma UniqByStep<T, K>(s: seq<T>, f: T -> K)
    requires |s| > 0
    ensures var u := UniqBy(s[..|s| - 1], f);
            UniqBy(s, f) == if HasKey(u, f, f(s[|s| - 1])) then u else u + [s[|s| - 1]]
  {
  }

  /** The last key of `s` is represented in `UniqBy(s, f)`. */
  lemma UniqByCoversLast<T, K>(s: seq<T>, f: T -> K)
    requires |s| > 0
    ensures HasKey(UniqBy(s, f), f, f(s[|s| - 1]))
  {
    var u := UniqBy(s[..|s| - 1], f);
    var r := UniqBy(s, f);
    UniqByStep(s, f);
    if HasKey(u, f, f(s[|s| - 1])) {
      assert r == u;
    } else {
      assert r[|r| - 1] == s[|s| - 1];
    }
  }

  /** A key represented for the prefix stays represented. */
  lemma UniqByCoversInit<T, K>(s: seq<T>, f: T -> K, k: K)
    requires |s| > 0
    requires HasKey(UniqBy(s[..|s| - 1], f), f, k)
    ensures HasKey(UniqBy(s, f), f, k)
  {
    var u := UniqBy(s[..|s| - 1], f);
    UniqByStep(s, f);
    HasKeyPrefix(u, UniqBy(s, f), f, k);
  }

  /** The key at position `i` is represented in the output. */
  lemma {:induction false} UniqByCoversAt<T, K>(s: seq<T>, f: T -> K, i: nat)
    requires i < |s|
    ensures HasKey(UniqBy(s, f), f, f(s[i]))
    decreases |s|
  {
    if i == |s| - 1 {
      UniqByCoversLast(s, f);
    } else {
      var init := s[..|s| - 1];
      assert init[i] == s[i];
      UniqByCoversAt(init, f, i);
      UniqByCoversInit(s, f, f(s[i]));
    }
  }

  /** Every key of the input is represented in the output. */
  lemma UniqByCovers<T, K>(s: seq<T>, f: T -> K)
    ensures forall i :: 0 <= i < |s| ==> HasKey(UniqBy(s, f), f, f(s[i]))
  {
    forall i | 0 <= i < |s| ensures HasKey(UniqBy(s, f), f, f(s[i])) {
      UniqByCoversAt(s, f, i);
    }
  }

  /** The first element of `s` whose key is `k`. */
  function FirstWithKey<T, K(==)>(s: seq<T>, f: T -> K, k: K): T
    requires HasKey(s, f, k)
  {
    var init := s[..|s| - 1];
    if HasKey(init, f, k) then FirstWithKey(init, f, k)
    else
      assert forall i :: 0 <= i < |init| ==> f(s[i]) != k by {
        forall i | 0 <= i < |init| ensures f(s[i]) != k {
          assert s[i] == init[i];
        }
      }
      s[|s| - 1]
  }

  /** `FirstWithKey` is the element at the first position carrying `k`. */
  lemma {:induction false} FirstWithKeyIsFirst<T, K>(s: seq<T>, f: T -> K, k: K)
    requires HasKey(s, f, k)
    ensures exists i :: 0 <= i < |s| && s[i] == FirstWithKey(s, f, k) && f(s[i]) == k
                        && forall j :: 0 <= j < i ==> f(s[j]) != k
    decreases |s|
  {
    var init := s[..|s| - 1];
    if HasKey(init, f, k) {
      FirstWithKeyIsFirst(init, f, k);
      var i :| 0 <= i < |init| && init[i] == FirstWithKey(init, f, k) && f(init[i]) == k
               && forall j :: 0 <= j < i ==> f(init[j]) != k;
      assert s[i] == init[i];
      assert forall j :: 0 <= j < i ==> s[j] == init[j];
    } else {
      var i := |s| - 1;
      assert f(s[i]) == k;
      assert forall j :: 0 <= j < i ==> f(s[j]) != k by {
        forall j | 0 <= j < i ensures f(s[j]) != k {
          assert s[j] == init[j];
        }
      }
    }
  }

  lemma FirstWithKeyOfPrefix<T, K>(s: seq<T>, f: T -> K, k: K)
    requires |s| > 0 && HasKey(s[..|s| - 1], f, k)
    ensures HasKey(s, f, k) && FirstWithKey(s, f, k) == FirstWithKey(s[..|s| - 1], f, k)
  {
    var i :| 0 <= i < |s| - 1 && f(s[..|s| - 1][i]) == k;
    assert f(s[i]) == k;
  }

  /** A key that `UniqBy` has not kept for the prefix does not occur in the
      prefix at all. */
  lemma UniqByNewKeyAbsent<T, K>(s: seq<T>, f: T -> K)
    requires |s| > 0 && !HasKey(UniqBy(s[..|s| - 1], f), f, f(s[|s| - 1]))
    ensures !HasKey(s[..|s| - 1], f, f(s[|s| - 1]))
  {
    var init := s[..|s| - 1];
    var x := s[|s| - 1];
    UniqByCovers(init, f);
    forall i | 0 <= i < |init| ensures f(init[i]) != f(x) {
      assert HasKey(UniqBy(init, f), f, f(init[i]));
    }
  }

  lemma UniqByNewKey<T, K>(s: seq<T>, f: T -> K)
    requires |s| > 0 && !HasKey(UniqBy(s[..|s| - 1], f), f, f(s[|s| - 1]))
    ensures HasKey(s, f, f(s[|s| - 1])) && FirstWithKey(s, f, f(s[|s| - 1])) == s[|s| - 1]
  {
    UniqByNewKeyAbsent(s, f);
  }

  /** Each element kept is the first element of the input with its key. */
  lemma {:induction false} UniqByKeepsFirst<T, K>(s: seq<T>, f: T -> K)
    ensures forall j :: 0 <= j < |UniqBy(s, f)| ==>
              HasKey(s, f, f(UniqBy(s, f)[j])) &&
              UniqBy(s, f)[j] == FirstWithKey(s, f, f(UniqBy(s, f)[j]))
    decreases |s|
  {
    if |s| > 0 {
      var init := s[..|s| - 1];
      var u := UniqBy(init, f);
      var r := UniqBy(s, f);
      UniqByKeepsFirst(init, f);
      forall j | 0 <= j < |r|
        ensures HasKey(s, f, f(r[j])) && r[j] == FirstWithKey(s, f, f(r[j]))
      {
        if j < |u| {
          assert r[j] == u[j];
          FirstWithKeyOfPrefix(s, f, f(u[j]));
        } else {
          UniqByNewKey(s, f);
        }
      }
    }
  }

  /** A key found in the prefix is first found at the same position in the
      whole sequence. */
  lemma FirstKeyIndexOfPrefix<T, K>(s: seq<T>, f: T -> K, k: K)
    requires |s| > 0 && HasKey(s[..|s| - 1], f, k)
    ensures FirstKeyIndex(s, f, k) == FirstKeyIndex(s[..|s| - 1], f, k) < |s| - 1
  {
  }

  /** The kept elements come in the order in which their keys first appear
      in the input. */
  lemma {:induction false} UniqByOrder<T, K>(s: seq<T>, f: T -> K)
    ensures var r := UniqBy(s, f);
            forall i, j :: 0 <= i < j < |r| ==> FirstKeyIndex(s, f, f(r[i])) < FirstKeyIndex(s, f, f(r[j]))
    decreases |s|
  {
    if |s| > 0 {
      var init := s[..|s| - 1];
      var u := UniqBy(init, f);
      var r := UniqBy(s, f);
      UniqByOrder(init, f);
      UniqByKeepsFirst(init, f);
      UniqByStep(s, f);
      assert |u| <= |r| && r[..|u|] == u;
      forall i | 0 <= i < |u|
        ensures FirstKeyIndex(s, f, f(r[i])) == FirstKeyIndex(init, f, f(u[i])) < |s| - 1
      {
        assert r[i] == u[i];
        FirstKeyIndexOfPrefix(s, f, f(u[i]));
      }
      if |r| > |u| {
        UniqByNewKeyAbsent(s, f);
        assert FirstKeyIndex(s, f, f(r[|u|])) == |s| - 1;
      }
    }
  }

  /** `UniqByOrder` for one pair of positions. */
  lemma UniqByOrderAt<T, K>(s: seq<T>, f: T -> K, i: nat, j: nat)
    requires i < j < |UniqBy(s, f)|
    ensures FirstKeyIndex(s, f, f(UniqBy(s, f)[i])) < FirstKeyIndex(s, f, f(UniqBy(s, f)[j]))
  {
    UniqByOrder(s, f);
  }

  function Identity<T>(x: T): T { x }

  /** `UniqBy` on the values themselves keeps exactly the values of `s`. */
  lemma UniqIdentityMembers<T>(s: seq<T>)
    ensures forall x :: x in UniqBy(s, Identity) <==> x in s
  {
    var r := UniqBy(s, Identity);
    UniqByCovers(s, Identity);
    UniqByKeepsFirst(s, Identity);
    forall x | x in s ensures x in r {
      var i :| 0 <= i < |s| && s[i] == x;
      assert HasKey(r, Identity, Identity(s[i]));
    }
    forall x | x in r ensures x in s {
      var j :| 0 <= j < |r| && r[j] == x;
      assert HasKey(s, Identity, Identity(r[j]));
    }
  }

  /** `UniqBy` on the values themselves lists no value twice. */
  lemma UniqIdentityDistinct<T>(s: seq<T>)
    ensures Distinct(UniqBy(s, Identity))
  {
    var r := UniqBy(s, Identity);
    forall i, j | 0 <= i < j < |r| ensures r[i] != r[j] {
      assert Identity(r[i]) != Identity(r[j]);
    }
  }

  /** lodash `uniq`: each distinct value once, in order of first appearance. */
  function Uniq<T(==,!new)>(s: seq<T>): (r: seq<T>)
    ensures Distinct(r)
    ensures forall x :: x in r <==> x in s
    ensures IsSubsequence(r, s)
    ensures forall i, j :: 0 <= i < j < |r| ==> FirstKeyIndex(s, Identity, r[i]) < FirstKeyIndex(s, Identity, r[j])
  {
    var r := UniqBy(s, Identity);
    UniqIdentityMembers(s);
    UniqIdentityDistinct(s);
    forall i, j | 0 <= i < j < |r|
      ensures FirstKeyIndex(s, Identity, r[i]) < FirstKeyIndex(s, Identity, r[j])
    {
      UniqByOrderAt(s, Identity, i, j);
      assert Identity(r[i]) == r[i] && Identity(r[j]) == r[j];
    }
    r
  }
}
