/** The total of the amounts in a table. */
module Totals {
  import opened Basics

  ghost function TotalOn<K(!new)>(m: map<K, Amount>, keys: set<K>): Amount {
    if keys == {} then 0
    else
      var k :| k in keys;
      Lookup(m, k) + TotalOn(m, keys - {k})
  }

  ghost function Total<K(!new)>(m: map<K, Amount>): Amount {
    TotalOn(m, m.Keys)
  }

  lemma {:induction false} TotalOnRemove<K(!new)>(m: map<K, Amount>, keys: set<K>, k: K)
    requires k in keys
    ensures TotalOn(m, keys) == Lookup(m, k) + TotalOn(m, keys - {k})
  {
    var p :| p in keys && TotalOn(m, keys) == Lookup(m, p) + TotalOn(m, keys - {p});
    if p != k {
      TotalOnRemove(m, keys - {p}, k);
      TotalOnRemove(m, keys - {k}, p);
      assert keys - {p} - {k} == keys - {k} - {p};
    }
  }

  lemma {:induction false} TotalOnSame<K(!new)>(m: map<K, Amount>, m': map<K, Amount>, keys: set<K>)
    requires forall k <- keys :: Lookup(m, k) == Lookup(m', k)
    ensures TotalOn(m, keys) == TotalOn(m', keys)
  {
    if keys != {} {
      var k :| k in keys;
      TotalOnSame(m, m', keys - {k});
      TotalOnRemove(m, keys, k);
      TotalOnRemove(m', keys, k);
    }
  }

  lemma TotalRemove<K(!new)>(m: map<K, Amount>, k: K)
    requires k in m
    ensures Total(m) == m[k] + Total(m - {k})
  {
    TotalOnRemove(m, m.Keys, k);
    TotalOnSame(m, m - {k}, m.Keys - {k});
    assert (m - {k}).Keys == m.Keys - {k};
  }

  lemma TotalSet<K(!new)>(m: map<K, Amount>, k: K, v: Amount)
    ensures Total(m[k := v]) == Total(m) - Lookup(m, k) + v
    ensures Total(m - {k}) == Total(m) - Lookup(m, k)
    ensures Lookup(m, k) <= Total(m)
  {
    TotalRemove(m[k := v], k);
    assert m[k := v] - {k} == m - {k};
    if k in m { TotalRemove(m, k); } else { assert m - {k} == m; }
  }

  function SumAt<K>(m: map<K, Amount>, keys: seq<K>): Amount {
    if keys == [] then 0 else SumAt(m, keys[..|keys| - 1]) + Lookup(m, keys[|keys| - 1])
  }

  // Adding up along any listing of the keys gives the total.
  lemma {:induction false} SumAtIsTotal<K(!new)>(m: map<K, Amount>, keys: seq<K>)
    requires forall i, j :: 0 <= i < j < |keys| ==> keys[i] != keys[j]
    requires forall k <- m :: k in keys
    ensures SumAt(m, keys) == Total(m)
    decreases |keys|
  {
    if keys == [] {
      assert m == map[];
    } else {
      var init, last := keys[..|keys| - 1], keys[|keys| - 1];
      TotalSet(m, last, 0);
      var m' := m - {last};
      forall k | k in m' ensures k in init { assert keys == init + [last]; }
      SumAtIsTotal(m', init);
      SumAtSame(m, m', init);
    }
  }

  lemma {:induction false} SumAtSame<K>(m: map<K, Amount>, m': map<K, Amount>, keys: seq<K>)
    requires forall k <- keys :: Lookup(m, k) == Lookup(m', k)
    ensures SumAt(m, keys) == SumAt(m', keys)
  {
    if keys == [] {
    } else {
      SumAtSame(m, m', keys[..|keys| - 1]);
      assert keys[|keys| - 1] in keys;
    }
  }

  lemma PutBack<K, V>(m: map<K, V>, k: K)
    requires k in m
    ensures (m - {k})[k := m[k]] == m && k !in m - {k} && |m - {k}| < |m|
  {
    assert m.Keys == (m - {k}).Keys + {k};
  }

  lemma UnionPut<K, V>(m: map<K, V>, m': map<K, V>, k: K, v: V)
    ensures m + m'[k := v] == (m + m')[k := v]
  {}

  lemma TotalOfEmpty<K(!new)>(m: map<K, Amount>)
    requires m == map[]
    ensures Total(m) == 0
  {}
}
