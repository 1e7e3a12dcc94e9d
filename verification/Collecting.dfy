/**
 Filling a map from numbered lines in some order.  The order does not matter as long as
 the keys differ and every non-empty line is reached.
 */
module Collecting {

  import opened Basics

  function Identity(n: nat): (s: seq<nat>)
    ensures |s| == n && forall i :: 0 <= i < n ==> s[i] == i
  {
    seq(n, i => i)
  }

  predicate InRange(order: seq<nat>, n: nat) {
    forall j :: 0 <= j < |order| ==> order[j] < n
  }

  function Add<K, V>(m: map<K, V>, key: K, line: Option<V>): map<K, V> {
    if line.Some? then m[key := line.value] else m
  }

  function Collect<K, V>(keys: seq<K>, lines: seq<Option<V>>, order: seq<nat>): map<K, V>
    requires |keys| == |lines|
    requires InRange(order, |keys|)
  {
    if order == [] then map[]
    else
      var last := order[|order| - 1];
      Add(Collect(keys, lines, order[..|order| - 1]), keys[last], lines[last])
  }

  lemma {:induction false} CollectHas<K, V>(keys: seq<K>, lines: seq<Option<V>>, order: seq<nat>)
    requires |keys| == |lines|
    requires InRange(order, |keys|)
    requires forall i, j :: 0 <= i < j < |keys| ==> keys[i] != keys[j]
    ensures forall i <- order :: lines[i].Some? ==>
              keys[i] in Collect(keys, lines, order) && Collect(keys, lines, order)[keys[i]] == lines[i].value
    ensures forall k <- Collect(keys, lines, order) :: exists i <- order :: lines[i].Some? && keys[i] == k
  {
    if order == [] {
    } else {
      var init := order[..|order| - 1];
      var last := order[|order| - 1];
      CollectHas(keys, lines, init);
      forall k | k in Collect(keys, lines, order)
        ensures exists i <- order :: lines[i].Some? && keys[i] == k
      {
        if k in Collect(keys, lines, init) {
          var i :| i in init && lines[i].Some? && keys[i] == k;
          assert i in order;
        } else {
          assert last in order;
        }
      }
    }
  }

  lemma OrderIrrelevant<K, V>(keys: seq<K>, lines: seq<Option<V>>, order: seq<nat>, order': seq<nat>)
    requires |keys| == |lines|
    requires InRange(order, |keys|)
    requires InRange(order', |keys|)
    requires forall i, j :: 0 <= i < j < |keys| ==> keys[i] != keys[j]
    requires forall i :: 0 <= i < |lines| && lines[i].Some? ==> i in order && i in order'
    ensures Collect(keys, lines, order) == Collect(keys, lines, order')
  {
    CollectHas(keys, lines, order);
    CollectHas(keys, lines, order');
    var m, m' := Collect(keys, lines, order), Collect(keys, lines, order');
    forall k | k in m ensures k in m' && m[k] == m'[k] {
      var i :| i in order && lines[i].Some? && keys[i] == k;
    }
    forall k | k in m' ensures k in m {
      var i :| i in order' && lines[i].Some? && keys[i] == k;
    }
    assert m.Keys == m'.Keys;
  }

  // Nothing is collected exactly when every line is empty.
  lemma CollectsNothing<K, V>(keys: seq<K>, lines: seq<Option<V>>, i: nat)
    requires |keys| == |lines| && i < |lines|
    requires forall i, j :: 0 <= i < j < |keys| ==> keys[i] != keys[j]
    requires Collect(keys, lines, Identity(|keys|)) == map[]
    ensures lines[i].None?
  {
    CollectHas(keys, lines, Identity(|keys|));
    assert Identity(|keys|)[i] == i;
  }

  lemma {:induction false} EmptyLines<K, V>(keys: seq<K>, lines: seq<Option<V>>, order: seq<nat>)
    requires |keys| == |lines| && InRange(order, |keys|)
    requires forall i :: 0 <= i < |lines| ==> lines[i].None?
    ensures Collect(keys, lines, order) == map[]
  {
    if order == [] {
    } else {
      EmptyLines(keys, lines, order[..|order| - 1]);
    }
  }
}
