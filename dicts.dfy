/** Python's `dict`, which remembers the order in which keys were first
    inserted: storing to a key that is already present replaces its value and
    leaves it where it was; a new key goes to the end. */
module Dicts {

  datatype Dict<K, V> = Dict(keys: seq<K>, values: map<K, V>) {

    /** Every key is listed once, and the listed keys are the mapped ones. */
    ghost predicate Valid() {
      && (forall i, j :: 0 <= i < j < |keys| ==> keys[i] != keys[j])
      && values.Keys == (set i | 0 <= i < |keys| :: keys[i])
    }
  }

  function Empty<K, V>(): (d: Dict<K, V>)
    ensures d.Valid() && d.values == map[]
  {
    Dict([], map[])
  }

  /** `d[k] = v`. */
  function Put<K, V>(d: Dict<K, V>, k: K, v: V): (r: Dict<K, V>)
    requires d.Valid()
    ensures r.Valid()
    ensures r.values == d.values[k := v]
    ensures k in d.values ==> r.keys == d.keys
    ensures k !in d.values ==> r.keys == d.keys + [k]
  {
    if k in d.values then Dict(d.keys, d.values[k := v])
    else
      var keys := d.keys + [k];
      assert (set i | 0 <= i < |keys| :: keys[i]) == d.values.Keys + {k} by {
        forall x | x in d.values.Keys + {k}
          ensures x in (set i | 0 <= i < |keys| :: keys[i])
        {
          if x != k {
            var i :| 0 <= i < |d.keys| && d.keys[i] == x;
            assert keys[i] == x;
          } else {
            assert keys[|keys| - 1] == x;
          }
        }
      }
      Dict(keys, d.values[k := v])
  }

  /** `dict(pairs)`, also what `{k: v for ...}` builds: the pairs are stored
      one after the other, so a later pair overwrites an earlier one with the
      same key. */
  function FromPairs<K, V>(ps: seq<(K, V)>): (d: Dict<K, V>)
    ensures d.Valid()
    decreases |ps|
  {
    if |ps| == 0 then Empty()
    else Put(FromPairs(ps[..|ps| - 1]), ps[|ps| - 1].0, ps[|ps| - 1].1)
  }

  /** The keys of `dict(pairs)` are exactly the keys of the pairs. */
  lemma {:induction false} FromPairsKeys<K, V>(ps: seq<(K, V)>, k: K)
    ensures k in FromPairs(ps).values <==> exists i :: 0 <= i < |ps| && ps[i].0 == k
    decreases |ps|
  {
    if |ps| > 0 {
      var init := ps[..|ps| - 1];
      FromPairsKeys(init, k);
      if exists i :: 0 <= i < |init| && init[i].0 == k {
        var i :| 0 <= i < |init| && init[i].0 == k;
        assert ps[i].0 == k;
      }
      if exists i :: 0 <= i < |ps| && ps[i].0 == k {
        var i :| 0 <= i < |ps| && ps[i].0 == k;
        if i < |ps| - 1 {
          assert init[i].0 == k;
        }
      }
    }
  }

  /** The value stored for a key is the value of the last pair with that key. */
  lemma {:induction false} FromPairsLast<K, V>(ps: seq<(K, V)>, i: nat)
    requires i < |ps|
    requires forall j :: i < j < |ps| ==> ps[j].0 != ps[i].0
    ensures ps[i].0 in FromPairs(ps).values && FromPairs(ps).values[ps[i].0] == ps[i].1
    decreases |ps|
  {
    if i < |ps| - 1 {
      FromPairsLast(ps[..|ps| - 1], i);
    }
  }

  /** `d.items()`: the pairs, in key order. */
  function Items<K, V>(d: Dict<K, V>): (r: seq<(K, V)>)
    requires d.Valid()
    ensures |r| == |d.keys|
    ensures forall i :: 0 <= i < |r| ==> d.keys[i] in d.values && r[i] == (d.keys[i], d.values[d.keys[i]])
  {
    seq(|d.keys|, i requires 0 <= i < |d.keys| => (d.keys[i], d.values[d.keys[i]]))
  }

  /** A pair is an item exactly when its key is mapped to its value; each
      key is listed once. */
  lemma ItemsMember<K, V>(d: Dict<K, V>, k: K, v: V)
    requires d.Valid()
    ensures (k, v) in Items(d) <==> k in d.values && d.values[k] == v
    ensures forall i, j :: 0 <= i < j < |Items(d)| ==> Items(d)[i].0 != Items(d)[j].0
  {
    if k in d.values {
      var i :| 0 <= i < |d.keys| && d.keys[i] == k;
      assert Items(d)[i] == (k, d.values[k]);
    }
  }

  /** The first element of each run of duplicates, in order. */
  function Dedup<T(==)>(xs: seq<T>): (r: seq<T>)
    ensures forall i, j :: 0 <= i < j < |r| ==> r[i] != r[j]
    ensures forall i :: 0 <= i < |r| ==> r[i] in xs
    ensures forall i :: 0 <= i < |xs| ==> xs[i] in r
    decreases |xs|
  {
    if |xs| == 0 then []
    else
      var init := Dedup(xs[..|xs| - 1]);
      var x := xs[|xs| - 1];
      if x in init then init else init + [x]
  }

  function Firsts<K, V>(ps: seq<(K, V)>): (r: seq<K>)
    ensures |r| == |ps| && forall i :: 0 <= i < |ps| ==> r[i] == ps[i].0
  {
    seq(|ps|, i requires 0 <= i < |ps| => ps[i].0)
  }

  /** `dict(pairs)` lists its keys in the order of their first appearance. */
  lemma {:induction false} FromPairsOrder<K, V>(ps: seq<(K, V)>)
    ensures FromPairs(ps).keys == Dedup(Firsts(ps))
    decreases |ps|
  {
    if |ps| > 0 {
      var init := ps[..|ps| - 1];
      FromPairsOrder(init);
      assert Firsts(ps)[..|ps| - 1] == Firsts(init);
      var k := ps[|ps| - 1].0;
      FromPairsKeys(init, k);
      if k in Firsts(init) {
        var i :| 0 <= i < |init| && Firsts(init)[i] == k;
      }
    }
  }
}
