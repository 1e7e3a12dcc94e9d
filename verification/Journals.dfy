/**
 What the client keeps for one account: a log of entries and, per block, the interval of the
 log that belongs to the block.
 */
module Journals {
  import opened Basics

  datatype Interval = Interval(first: nat, count: nat)

  datatype Journal<T> = Journal(log: seq<T>, index: map<nat, Interval>)

  // ----- What a journal stands for: entries with their blocks -----

  function Items<T>(entries: seq<(nat, T)>): seq<T> {
    seq(|entries|, i requires 0 <= i < |entries| => entries[i].1)
  }

  function Blocks<T>(entries: seq<(nat, T)>): seq<nat> {
    seq(|entries|, i requires 0 <= i < |entries| => entries[i].0)
  }

  predicate Sorted(blocks: seq<nat>) {
    forall i, j :: 0 <= i < j < |blocks| ==> blocks[i] <= blocks[j]
  }

  function IndexOf(blocks: seq<nat>): map<nat, Interval> {
    if blocks == [] then map[]
    else
      var m, b := IndexOf(blocks[..|blocks| - 1]), blocks[|blocks| - 1];
      m[b := if b in m then m[b].(count := m[b].count + 1) else Interval(|blocks| - 1, 1)]
  }

  function JournalOf<T>(entries: seq<(nat, T)>): Journal<T> {
    Journal(Items(entries), IndexOf(Blocks(entries)))
  }

  // The entries of a block are an interval of their own.
  ghost predicate Covers(blocks: seq<nat>, iv: Interval, b: nat) {
    && iv.count > 0 && iv.first + iv.count <= |blocks|
    && forall k :: 0 <= k < |blocks| ==> (blocks[k] == b <==> iv.first <= k < iv.first + iv.count)
  }

  ghost predicate Partition(blocks: seq<nat>, m: map<nat, Interval>) {
    (forall b :: b in m <==> b in blocks) && forall b <- m :: Covers(blocks, m[b], b)
  }

  lemma OneMoreBlock(blocks: seq<nat>, m: map<nat, Interval>, b: nat)
    requires Partition(blocks, m) && (blocks != [] ==> blocks[|blocks| - 1] <= b) && Sorted(blocks)
    ensures b in m ==> m[b].first + m[b].count == |blocks|
    ensures Partition(blocks + [b], m[b := if b in m then m[b].(count := m[b].count + 1) else Interval(|blocks|, 1)])
  {
    if b in m {
      var iv := m[b];
      assert blocks[iv.first] == b;
      assert blocks[|blocks| - 1] == b;
    }
    var m' := m[b := if b in m then m[b].(count := m[b].count + 1) else Interval(|blocks|, 1)];
    var blocks' := blocks + [b];
    forall c | c in m' ensures Covers(blocks', m'[c], c) {
      if c != b { assert Covers(blocks, m[c], c); }
      else if b in m { assert Covers(blocks, m[b], b); }
    }
  }

  // With blocks in order, the index cuts the log into one interval for each block.
  lemma {:induction false} IndexPartitions(blocks: seq<nat>)
    requires Sorted(blocks)
    ensures Partition(blocks, IndexOf(blocks))
  {
    if blocks == [] {
    } else {
      var init, b := blocks[..|blocks| - 1], blocks[|blocks| - 1];
      assert blocks == init + [b];
      IndexPartitions(init);
      OneMoreBlock(init, IndexOf(init), b);
    }
  }

  // Later blocks have later intervals.
  lemma IntervalsAscend(blocks: seq<nat>, b: nat, c: nat)
    requires Sorted(blocks) && b in IndexOf(blocks) && c in IndexOf(blocks) && b < c
    ensures IndexOf(blocks)[b].first + IndexOf(blocks)[b].count <= IndexOf(blocks)[c].first
  {
    IndexPartitions(blocks);
    var x, y := IndexOf(blocks)[b], IndexOf(blocks)[c];
    assert Covers(blocks, x, b) && Covers(blocks, y, c);
    var last := x.first + x.count - 1;
    assert blocks[last] == b && blocks[y.first] == c;
  }

  ghost predicate InOrder<T>(entries: seq<(nat, T)>, block: nat) {
    Sorted(Blocks(entries)) && (entries != [] ==> entries[|entries| - 1].0 <= block)
  }

  lemma OrderGrows<T>(entries: seq<(nat, T)>, block: nat, x: T)
    requires InOrder(entries, block)
    ensures InOrder(entries + [(block, x)], block)
    ensures Items(entries + [(block, x)]) == Items(entries) + [x]
    ensures Blocks(entries + [(block, x)]) == Blocks(entries) + [block]
  {
    var more := entries + [(block, x)];
    forall i, j | 0 <= i < j < |more| ensures Blocks(more)[i] <= Blocks(more)[j] {
      if j == |entries| {
        assert Blocks(entries)[i] == entries[i].0 && Blocks(entries)[|entries| - 1] == entries[|entries| - 1].0;
      } else {
        assert Blocks(entries)[i] <= Blocks(entries)[j];
      }
    }
  }

  // Adding an entry for the newest block; false where the code's check fails.
  method Push<T>(j: Journal<T>, block: nat, x: T, ghost entries: seq<(nat, T)>) returns (ok: bool, j': Journal<T>)
    requires j == JournalOf(entries) && InOrder(entries, block)
    ensures ok && j' == JournalOf(entries + [(block, x)])
  {
    OrderGrows(entries, block, x);
    IndexPartitions(Blocks(entries));
    OneMoreBlock(Blocks(entries), IndexOf(Blocks(entries)), block);
    assert (Blocks(entries) + [block])[..|entries|] == Blocks(entries);
    var log := j.log + [x];
    var current := |log| - 1;
    if block !in j.index {
      return true, Journal(log, j.index[block := Interval(current, 1)]);
    }
    var stored := j.index[block];
    if stored.first + stored.count != current { return false, j; }
    return true, Journal(log, j.index[block := stored.(count := stored.count + 1)]);
  }

  lemma WithoutLast<K, V>(m: map<K, V>, k: K, v: V)
    requires k !in m
    ensures m[k := v] - {k} == m
  {}

  // Taking the last entry of the newest block away again.
  method Pop<T>(j: Journal<T>, block: nat, ghost entries: seq<(nat, T)>, ghost x: T) returns (ok: bool, j': Journal<T>)
    requires j == JournalOf(entries + [(block, x)]) && InOrder(entries, block)
    ensures ok && j' == JournalOf(entries)
  {
    OrderGrows(entries, block, x);
    IndexPartitions(Blocks(entries));
    OneMoreBlock(Blocks(entries), IndexOf(Blocks(entries)), block);
    assert (Blocks(entries) + [block])[..|entries|] == Blocks(entries);
    ghost var m := IndexOf(Blocks(entries));
    assert block in m ==> Covers(Blocks(entries), m[block], block);
    var log := j.log[..|j.log| - 1];
    var current := |log|;
    if block !in j.index { return false, j; }
    var stored := j.index[block];
    if stored.first + stored.count != current + 1 { return false, j; }
    if stored.count == 1 {
      WithoutLast(m, block, stored);
      return true, Journal(log, j.index - {block});
    }
    assert block in m;
    assert m[block := stored][block := m[block]] == m;
    return true, Journal(log, j.index[block := stored.(count := stored.count - 1)]);
  }
}
