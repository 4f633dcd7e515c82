/** The `minerals` object of a catalogue record: mineral type id to
    quantity. JavaScript enumerates the integer keys of an object in
    ascending numeric order, so the object is modelled by its entry list,
    kept strictly ascending in key; `Object.entries` is then the list itself
    and `Object.keys` its first components. */
module MineralTable {
  import opened Collections

  type Entries = seq<(nat, real)>

  predicate KeysAscending(e: Entries) {
    forall i, j :: 0 <= i < j < |e| ==> e[i].0 < e[j].0
  }

  /** `Object.keys`, as numbers. */
  function Keys(e: Entries): (r: seq<nat>)
    ensures |r| == |e| && forall i :: 0 <= i < |e| ==> r[i] == e[i].0
  {
    seq(|e|, i requires 0 <= i < |e| => e[i].0)
  }

  function KeySet(e: Entries): set<nat> {
    set i | 0 <= i < |e| :: e[i].0
  }

  lemma KeySetCons(e: Entries)
    requires |e| > 0
    ensures KeySet(e) == {e[0].0} + KeySet(e[1..])
  {
    forall x | x in KeySet(e) ensures x == e[0].0 || x in KeySet(e[1..]) {
      var i :| 0 <= i < |e| && e[i].0 == x;
      if i > 0 { assert e[1..][i - 1].0 == x; }
    }
    forall x | x in KeySet(e[1..]) ensures x in KeySet(e) {
      var i :| 0 <= i < |e[1..]| && e[1..][i].0 == x;
      assert e[i + 1].0 == x;
    }
  }

  /** `obj[k]`, with `None` for `undefined`. */
  function Get(e: Entries, k: nat): (r: Option<real>)
    ensures r.Some? <==> k in KeySet(e)
  {
    if |e| == 0 then None
    else
      KeySetCons(e);
      if e[0].0 == k then Some(e[0].1) else Get(e[1..], k)
  }

  /** `obj[k] = v`: overwrites the value of an existing key in place, or adds
      the key at its ascending position. */
  function Put(e: Entries, k: nat, v: real): (r: Entries)
    requires KeysAscending(e)
    ensures KeysAscending(r)
    ensures KeySet(r) == KeySet(e) + {k}
  {
    if |e| == 0 then
      assert [(k, v)][0].0 == k;
      [(k, v)]
    else if e[0].0 == k then
      var r := [(k, v)] + e[1..];
      KeySetCons(e);
      KeySetCons(r);
      assert r[1..] == e[1..];
      r
    else if k < e[0].0 then
      var r := [(k, v)] + e;
      KeySetCons(r);
      assert r[1..] == e;
      r
    else
      var t := Put(e[1..], k, v);
      var r := [e[0]] + t;
      KeySetCons(e);
      KeySetCons(r);
      assert r[1..] == t;
      TailKeysAbove(e);
      KeysAbove(t, e[0].0);
      r
  }

  /** Every key after the first of an ascending list exceeds the first. */
  lemma TailKeysAbove(e: Entries)
    requires KeysAscending(e) && |e| > 0
    ensures forall x :: x in KeySet(e[1..]) ==> e[0].0 < x
  {
    forall x | x in KeySet(e[1..]) ensures e[0].0 < x {
      var j :| 0 <= j < |e[1..]| && e[1..][j].0 == x;
      assert e[j + 1].0 == x;
    }
  }

  /** A bound on the key set bounds every entry. */
  lemma KeysAbove(t: Entries, b: nat)
    requires forall x :: x in KeySet(t) ==> b < x
    ensures forall i :: 0 <= i < |t| ==> b < t[i].0
  {
    forall i | 0 <= i < |t| ensures b < t[i].0 {
      assert t[i].0 in KeySet(t);
    }
  }

  /** After `obj[k] = v`, key `k` reads `v` and every other key reads what
      it read before. */
  lemma {:induction false} PutGet(e: Entries, k: nat, v: real, j: nat)
    requires KeysAscending(e)
    ensures Get(Put(e, k, v), j) == if j == k then Some(v) else Get(e, j)
    decreases |e|
  {
    if |e| > 0 && e[0].0 != k && k > e[0].0 {
      PutGet(e[1..], k, v, j);
      assert Put(e, k, v)[1..] == Put(e[1..], k, v);
    } else if |e| > 0 && e[0].0 == k {
      assert Put(e, k, v)[1..] == e[1..];
    } else if |e| > 0 {
      assert Put(e, k, v)[1..] == e;
    }
  }
}
