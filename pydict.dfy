/**
 * Python's dict: a map that remembers the order in which keys were FIRST inserted.
 * Re-assigning an existing key overwrites its value and keeps its position; a new key
 * goes last. Iteration order (and so a DataFrame's column order) is `keys`.
 */
module PyDict {

  datatype Dict<K, V> = Dict(keys: seq<K>, m: map<K, V>)

  predicate Distinct<K(==)>(ks: seq<K>)
  {
    forall i, j :: 0 <= i < j < |ks| ==> ks[i] != ks[j]
  }

  /** Every listed key is in the map exactly once and every mapped key is listed. */
  ghost predicate Valid<K(!new), V>(d: Dict<K, V>)
  {
    && Distinct(d.keys)
    && (forall k :: k in d.m <==> k in d.keys)
  }

  function Empty<K(==,!new), V>(): (d: Dict<K, V>)
    ensures Valid(d) && d.keys == [] && d.m == map[]
  {
    Dict([], map[])
  }

  /** `d[k] = v` */
  function Put<K(==,!new), V>(d: Dict<K, V>, k: K, v: V): (r: Dict<K, V>)
    ensures r.m == d.m[k := v]
    ensures k in d.m ==> r.keys == d.keys
    ensures k !in d.m ==> r.keys == d.keys + [k]
  {
    if k in d.m then Dict(d.keys, d.m[k := v]) else Dict(d.keys + [k], d.m[k := v])
  }

  function KeysOf<K, V>(ps: seq<(K, V)>): (ks: seq<K>)
    ensures |ks| == |ps|
    ensures forall i :: 0 <= i < |ps| ==> ks[i] == ps[i].0
  {
    seq(|ps|, i requires 0 <= i < |ps| => ps[i].0)
  }

  /** The dict left behind by assigning the pairs one after another. */
  function FromPairs<K(==,!new), V>(ps: seq<(K, V)>): (d: Dict<K, V>)
    decreases |ps|
  {
    if ps == [] then Empty()
    else Put(FromPairs(ps[..|ps| - 1]), ps[|ps| - 1].0, ps[|ps| - 1].1)
  }

  /** Assignment keeps every key listed once. */
  lemma PutValid<K(!new), V>(d: Dict<K, V>, k: K, v: V)
    requires Valid(d)
    ensures Valid(Put(d, k, v))
  {
  }

  lemma {:induction false} FromPairsValid<K(!new), V>(ps: seq<(K, V)>)
    ensures Valid(FromPairs(ps))
    decreases |ps|
  {
    if ps != [] {
      FromPairsValid(ps[..|ps| - 1]);
      PutValid(FromPairs(ps[..|ps| - 1]), ps[|ps| - 1].0, ps[|ps| - 1].1);
    }
  }

  lemma FromPairsSnoc<K(!new), V>(ps: seq<(K, V)>, k: K, v: V)
    ensures FromPairs(ps + [(k, v)]) == Put(FromPairs(ps), k, v)
  {
    assert (ps + [(k, v)])[..|ps|] == ps;
  }

  /** A key is present exactly when some pair assigned it, and it holds the value of the LAST such pair. */
  lemma {:induction false} FromPairsLastWins<K(!new), V>(ps: seq<(K, V)>, i: nat)
    requires i < |ps|
    requires forall j :: i < j < |ps| ==> ps[j].0 != ps[i].0
    ensures ps[i].0 in FromPairs(ps).m && FromPairs(ps).m[ps[i].0] == ps[i].1
    decreases |ps|
  {
    var n := |ps| - 1;
    if i < n {
      FromPairsLastWins(ps[..n], i);
    }
  }

  lemma {:induction false} FromPairsDomain<K(!new), V>(ps: seq<(K, V)>, k: K)
    ensures k in FromPairs(ps).m <==> exists i :: 0 <= i < |ps| && ps[i].0 == k
    decreases |ps|
  {
    if ps != [] {
      var n := |ps| - 1;
      FromPairsDomain(ps[..n], k);
      if exists i :: 0 <= i < n && ps[..n][i].0 == k {
        var i :| 0 <= i < n && ps[..n][i].0 == k;
        assert ps[i].0 == k;
      }
      if exists i :: 0 <= i < |ps| && ps[i].0 == k {
        var i :| 0 <= i < |ps| && ps[i].0 == k;
        if i < n {
          assert ps[..n][i].0 == k;
        }
      }
    }
  }

  /** When no key repeats, the dict lists the keys in the order the pairs gave them. */
  lemma {:induction false} FromPairsDistinctKeys<K(!new), V>(ps: seq<(K, V)>)
    requires Distinct(KeysOf(ps))
    ensures FromPairs(ps).keys == KeysOf(ps)
    decreases |ps|
  {
    if ps != [] {
      var n := |ps| - 1;
      var pre := ps[..n];
      assert KeysOf(pre) == KeysOf(ps)[..n];
      FromPairsDistinctKeys(pre);
      FromPairsValid(pre);
      assert KeysOf(ps) == KeysOf(pre) + [ps[n].0];
    }
  }

  /** ... and every key holds the value its (only) pair gave it. */
  lemma FromPairsDistinctValues<K(!new), V>(ps: seq<(K, V)>, i: nat)
    requires Distinct(KeysOf(ps))
    requires i < |ps|
    ensures ps[i].0 in FromPairs(ps).m && FromPairs(ps).m[ps[i].0] == ps[i].1
  {
    forall j | i < j < |ps|
      ensures ps[j].0 != ps[i].0
    {
      assert KeysOf(ps)[i] != KeysOf(ps)[j];
    }
    FromPairsLastWins(ps, i);
  }

  /** `list(d.items())`: the key/value pairs in insertion order. */
  function Items<K(!new), V>(d: Dict<K, V>): (r: seq<(K, V)>)
    requires Valid(d)
    ensures Distinct(KeysOf(r))
    ensures forall i :: 0 <= i < |r| ==> r[i].0 in d.m && d.m[r[i].0] == r[i].1
    ensures forall k :: k in d.m ==> (k, d.m[k]) in r
  {
    var r := seq(|d.keys|, i requires 0 <= i < |d.keys| => (d.keys[i], d.m[d.keys[i]]));
    assert forall i :: 0 <= i < |d.keys| ==> r[i] == (d.keys[i], d.m[d.keys[i]]) && r[i] in r;
    r
  }

  /** Assigning pairs with distinct keys and reading the items back gives the same pairs. */
  lemma ItemsFromPairs<K(!new), V>(ps: seq<(K, V)>)
    requires Distinct(KeysOf(ps))
    ensures Valid(FromPairs(ps)) && Items(FromPairs(ps)) == ps
  {
    FromPairsValid(ps);
    FromPairsDistinctKeys(ps);
    forall i | 0 <= i < |ps|
      ensures Items(FromPairs(ps))[i] == ps[i]
    {
      FromPairsDistinctValues(ps, i);
    }
  }

  /** Assigning the pairs one after another to an existing dict. */
  function PutAll<K(==,!new), V>(d: Dict<K, V>, ps: seq<(K, V)>): (r: Dict<K, V>)
    decreases |ps|
  {
    if ps == [] then d
    else Put(PutAll(d, ps[..|ps| - 1]), ps[|ps| - 1].0, ps[|ps| - 1].1)
  }

  lemma PutAllSnoc<K(!new), V>(d: Dict<K, V>, ps: seq<(K, V)>, k: K, v: V)
    ensures PutAll(d, ps + [(k, v)]) == Put(PutAll(d, ps), k, v)
  {
    assert (ps + [(k, v)])[..|ps|] == ps;
  }

  /** Assigning `a` then `b` to the dict built from `ps` builds the dict of `ps + a + b`. */
  lemma {:induction false} FromPairsAppend<K(!new), V>(ps: seq<(K, V)>, qs: seq<(K, V)>)
    ensures FromPairs(ps + qs) == PutAll(FromPairs(ps), qs)
    decreases |qs|
  {
    if qs != [] {
      var n := |qs| - 1;
      FromPairsAppend(ps, qs[..n]);
      assert ps + qs == (ps + qs[..n]) + [qs[n]];
      FromPairsSnoc(ps + qs[..n], qs[n].0, qs[n].1);
      assert qs == qs[..n] + [qs[n]];
      PutAllSnoc(FromPairs(ps), qs[..n], qs[n].0, qs[n].1);
    } else {
      assert ps + qs == ps;
    }
  }

  /** Every mapped key holds the value of some pair that assigned it. */
  lemma {:induction false} FromPairsValueFrom<K(!new), V>(ps: seq<(K, V)>, k: K)
    requires k in FromPairs(ps).m
    ensures (k, FromPairs(ps).m[k]) in ps
    decreases |ps|
  {
    var n := |ps| - 1;
    if ps[n].0 != k {
      FromPairsValueFrom(ps[..n], k);
      assert ps == ps[..n] + [ps[n]];
    }
  }

  /** Every assigned key is mapped. */
  lemma {:induction false} FromPairsHas<K(!new), V>(ps: seq<(K, V)>, k: K, v: V)
    requires (k, v) in ps
    ensures k in FromPairs(ps).m
    decreases |ps|
  {
    var n := |ps| - 1;
    if ps[n] != (k, v) {
      assert ps == ps[..n] + [ps[n]];
      FromPairsHas(ps[..n], k, v);
    }
  }

  /** When a run of assignments writes `k` and always with `v`, `k` ends up holding `v`, whatever came before. */
  lemma {:induction false} PutAllSame<K(!new), V>(d: Dict<K, V>, qs: seq<(K, V)>, k: K, v: V)
    requires exists i :: 0 <= i < |qs| && qs[i].0 == k
    requires forall i :: 0 <= i < |qs| && qs[i].0 == k ==> qs[i].1 == v
    ensures k in PutAll(d, qs).m && PutAll(d, qs).m[k] == v
    decreases |qs|
  {
    var n := |qs| - 1;
    if qs[n].0 != k {
      var i :| 0 <= i < |qs| && qs[i].0 == k;
      assert qs[..n][i].0 == k;
      PutAllSame(d, qs[..n], k, v);
    }
  }

  /** A run of assignments that never writes `k` leaves it as it was. */
  lemma {:induction false} PutAllUntouched<K(!new), V>(d: Dict<K, V>, qs: seq<(K, V)>, k: K)
    requires forall i :: 0 <= i < |qs| ==> qs[i].0 != k
    ensures k in PutAll(d, qs).m <==> k in d.m
    ensures k in d.m ==> PutAll(d, qs).m[k] == d.m[k]
    decreases |qs|
  {
    if qs != [] {
      PutAllUntouched(d, qs[..|qs| - 1], k);
    }
  }
}
