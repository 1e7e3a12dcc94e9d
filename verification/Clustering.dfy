/**
 Grouping the transactions of the pool before a block is mined: transactions that share a
 participant, directly or through others, form one cluster, and every transaction gets the
 size and the fees of its cluster.
 */
module Clustering {
  import opened Basics
  import opened Totals

  // The participants of each transaction.
  type Pool = seq<set<Address>>

  // ----- Clusters -----

  ghost predicate Linked(pool: Pool, i: nat, j: nat) {
    i < |pool| && j < |pool| && exists p :: p != "" && p in pool[i] && p in pool[j]
  }

  ghost predicate Path(pool: Pool, s: seq<nat>) {
    s != [] && (forall k :: 0 <= k < |s| ==> s[k] < |pool|) && forall k :: 0 < k < |s| ==> Linked(pool, s[k - 1], s[k])
  }

  ghost predicate Leads(pool: Pool, s: seq<nat>, i: nat, j: nat) {
    Path(pool, s) && s[0] == i && s[|s| - 1] == j
  }

  ghost predicate Connected(pool: Pool, i: nat, j: nat) {
    exists s :: Leads(pool, s, i, j)
  }

  ghost function Cluster(pool: Pool, i: nat): set<nat> {
    set j | 0 <= j < |pool| && Connected(pool, i, j)
  }

  ghost predicate Closed(pool: Pool, s: set<nat>) {
    forall i, j :: i in s && Linked(pool, i, j) ==> j in s
  }

  lemma ConnectedToItself(pool: Pool, i: nat)
    requires i < |pool|
    ensures Connected(pool, i, i)
  {
    assert Leads(pool, [i], i, i);
  }

  lemma OneLinkMore(pool: Pool, i: nat, j: nat, k: nat)
    requires Connected(pool, i, j) && Linked(pool, j, k)
    ensures Connected(pool, i, k)
  {
    var s :| Leads(pool, s, i, j);
    assert Leads(pool, s + [k], i, k);
  }

  lemma {:induction false} ClosedHolds(pool: Pool, c: set<nat>, s: seq<nat>)
    requires Closed(pool, c) && Path(pool, s) && s[0] in c
    ensures s[|s| - 1] in c
    decreases |s|
  {
    if |s| > 1 {
      assert Linked(pool, s[0], s[1]);
      assert Path(pool, s[1..]) by {
        forall k | 0 < k < |s[1..]| ensures Linked(pool, s[1..][k - 1], s[1..][k]) { assert Linked(pool, s[k], s[k + 1]); }
      }
      ClosedHolds(pool, c, s[1..]);
    }
  }

  lemma ClosedHasCluster(pool: Pool, c: set<nat>, i: nat)
    requires Closed(pool, c) && i in c
    ensures Cluster(pool, i) <= c
  {
    forall j | j in Cluster(pool, i) ensures j in c {
      var s :| Leads(pool, s, i, j);
      ClosedHolds(pool, c, s);
    }
  }

  lemma ClusterIsClosed(pool: Pool, i: nat)
    ensures Closed(pool, Cluster(pool, i))
  {
    forall j, k | j in Cluster(pool, i) && Linked(pool, j, k) ensures k in Cluster(pool, i) { OneLinkMore(pool, i, j, k); }
  }

  lemma {:induction false} Backwards(pool: Pool, s: seq<nat>, i: nat)
    requires Path(pool, s) && i < |pool| && Connected(pool, s[|s| - 1], i)
    ensures Connected(pool, s[|s| - 1], s[0])
    decreases |s|
  {
    var last := s[|s| - 1];
    if |s| == 1 {
      ConnectedToItself(pool, last);
    } else {
      assert Path(pool, s[1..]) by {
        forall k | 0 < k < |s[1..]| ensures Linked(pool, s[1..][k - 1], s[1..][k]) { assert Linked(pool, s[k], s[k + 1]); }
      }
      Backwards(pool, s[1..], i);
      assert Linked(pool, s[0], s[1]);
      OneLinkMore(pool, last, s[1], s[0]);
    }
  }

  // All members of a cluster have the same cluster.
  lemma SameCluster(pool: Pool, i: nat, j: nat)
    requires i < |pool| && j in Cluster(pool, i)
    ensures Cluster(pool, j) == Cluster(pool, i) && i in Cluster(pool, j)
  {
    var s :| Leads(pool, s, i, j);
    ConnectedToItself(pool, j);
    Backwards(pool, s, j);
    ClusterIsClosed(pool, i);
    ClosedHasCluster(pool, Cluster(pool, i), j);
    ClusterIsClosed(pool, j);
    ClosedHasCluster(pool, Cluster(pool, j), i);
  }

  // ----- The loops -----

  ghost predicate IndexOf(pool: Pool, index: map<Address, set<nat>>) {
    && (forall p <- index :: p != "" && forall i :: i in index[p] ==> i < |pool| && p in pool[i])
    && forall i, p :: 0 <= i < |pool| && p in pool[i] && p != "" ==> p in index && i in index[p]
  }

  method AddParticipants(index: map<Address, set<nat>>, participants: set<Address>, i: nat) returns (index': map<Address, set<nat>>)
    ensures index'.Keys == index.Keys + (participants - {""})
    ensures forall p <- index' :: index'[p] == (if p in index then index[p] else {}) + (if p in participants && p != "" then {i} else {})
  {
    index' := index;
    var rest := participants;
    while rest != {}
      invariant rest <= participants && index'.Keys == index.Keys + (participants - rest - {""})
      invariant forall p <- index' ::
        index'[p] == (if p in index then index[p] else {}) + (if p in participants && p !in rest && p != "" then {i} else {})
      decreases rest
    {
      var p :| p in rest;
      if p != "" { index' := index'[p := (if p in index' then index'[p] else {}) + {i}]; }
      rest := rest - {p};
    }
  }

  method IndexParticipants(pool: Pool) returns (index: map<Address, set<nat>>)
    ensures IndexOf(pool, index)
  {
    index := map[];
    for i := 0 to |pool|
      invariant forall p <- index :: p != "" && forall k :: k in index[p] ==> k < i && p in pool[k]
      invariant forall k, p :: 0 <= k < i && p in pool[k] && p != "" ==> p in index && k in index[p]
    {
      index := AddParticipants(index, pool[i], i);
    }
  }

  function Fees(fees: seq<Amount>): map<nat, Amount> {
    map i | 0 <= i < |fees| :: fees[i]
  }

  lemma TotalOnUnion(m: map<nat, Amount>, s: set<nat>, i: nat)
    requires i !in s
    ensures TotalOn(m, s + {i}) == TotalOn(m, s) + Lookup(m, i)
  {
    TotalOnRemove(m, s + {i}, i);
    assert s + {i} - {i} == s;
  }

  lemma OneMoreCounted(fees: seq<Amount>, used: set<nat>, done: set<nat>, i: nat)
    requires i < |fees| && i !in used + done
    ensures |used + (done + {i})| == |used + done| + 1
    ensures TotalOn(Fees(fees), used + (done + {i})) == TotalOn(Fees(fees), used + done) + fees[i]
  {
    assert used + (done + {i}) == used + done + {i};
    TotalOnUnion(Fees(fees), used + done, i);
  }

  ghost predicate Participants(pool: Pool, s: set<nat>, participants: set<Address>) {
    && (forall i, p :: i in s && i < |pool| && p in pool[i] ==> p in participants)
    && forall p <- participants :: exists i <- s :: i < |pool| && p in pool[i]
  }

  lemma ParticipantsMore(pool: Pool, s: set<nat>, participants: set<Address>, i: nat)
    requires Participants(pool, s, participants) && i < |pool|
    ensures Participants(pool, s + {i}, participants + pool[i])
  {
    forall p | p in participants + pool[i] ensures exists k <- s + {i} :: k < |pool| && p in pool[k] {
      if p in pool[i] {
        assert i in s + {i};
      } else {
        var k :| k in s && k < |pool| && p in pool[k];
        assert k in s + {i};
      }
    }
  }

  // Counts one layer and collects its participants.
  method CountLayer(pool: Pool, fees: seq<Amount>, layer: set<nat>, size: nat, value: Amount, ghost used: set<nat>)
    returns (size': nat, value': Amount, participants: set<Address>)
    requires |fees| == |pool| && layer !! used && forall i <- layer :: i < |pool|
    requires size == |used| && value == TotalOn(Fees(fees), used)
    ensures size' == |used + layer| && value' == TotalOn(Fees(fees), used + layer)
    ensures Participants(pool, layer, participants)
  {
    size', value', participants := size, value, {};
    ghost var done: set<nat> := {};
    var rest := layer;
    assert used + done == used;
    while rest != {}
      invariant rest !! done && rest + done == layer
      invariant size' == |used + done| && value' == TotalOn(Fees(fees), used + done)
      invariant Participants(pool, done, participants)
      decreases rest
    {
      var i :| i in rest;
      assert i < |pool|;
      size' := size' + 1;
      value' := value' + fees[i];
      OneMoreCounted(fees, used, done, i);
      ParticipantsMore(pool, done, participants, i);
      participants := participants + pool[i];
      done, rest := done + {i}, rest - {i};
    }
    assert done == layer;
  }

  // The transactions not used yet that share one of the participants.
  method NextLayer(index: map<Address, set<nat>>, participants: set<Address>, used: set<nat>) returns (next: set<nat>)
    ensures forall i :: i in next <==> i !in used && exists p <- participants :: p in index && i in index[p]
  {
    next := {};
    var rest := participants;
    while rest != {}
      invariant rest <= participants
      invariant forall i :: i in next <==> i !in used && exists p <- participants - rest :: p in index && i in index[p]
      decreases rest
    {
      var p :| p in rest;
      assert participants - (rest - {p}) == (participants - rest) + {p};
      if p in index { next := next + (index[p] - used); }
      rest := rest - {p};
    }
    assert participants - rest == participants;
  }

  // Everything linked to the layer is used already or comes next.
  lemma NextIsLinked(pool: Pool, index: map<Address, set<nat>>, layer: set<nat>, participants: set<Address>, used: set<nat>, next: set<nat>)
    requires IndexOf(pool, index) && Participants(pool, layer, participants) && forall i <- layer :: i < |pool|
    requires forall i :: i in next <==> i !in used && exists p <- participants :: p in index && i in index[p]
    ensures forall j :: j in next ==> j < |pool| && exists i <- layer :: Linked(pool, i, j)
    ensures forall i, j :: i in layer && Linked(pool, i, j) ==> j in used || j in next
  {
    forall j | j in next ensures j < |pool| && exists i <- layer :: Linked(pool, i, j) {
      var p :| p in participants && p in index && j in index[p];
      var i :| i in layer && i < |pool| && p in pool[i];
      assert Linked(pool, i, j);
    }
    forall i: nat, j: nat | i in layer && Linked(pool, i, j) && j !in used ensures j in next {
      var p :| p != "" && p in pool[i] && p in pool[j];
      assert p in participants && p in index && j in index[p];
    }
  }

  // The breadth-first search from one transaction finds its cluster, its size and its fees.
  method Search(pool: Pool, fees: seq<Amount>, index: map<Address, set<nat>>, start: nat)
    returns (used: set<nat>, size: nat, value: Amount)
    requires |fees| == |pool| && start < |pool| && IndexOf(pool, index)
    ensures used == Cluster(pool, start) && start in used && size == |used| && value == TotalOn(Fees(fees), used)
  {
    ConnectedToItself(pool, start);
    used, size, value := {}, 0, 0;
    var next := {start};
    ghost var cluster := Cluster(pool, start);
    ClusterIsClosed(pool, start);
    while next != {}
      invariant used !! next && used + next <= cluster && start in used + next
      invariant forall i, j :: i in used && Linked(pool, i, j) ==> j in used || j in next
      invariant size == |used| && value == TotalOn(Fees(fees), used)
      decreases cluster - used
    {
      var participants;
      size, value, participants := CountLayer(pool, fees, next, size, value, used);
      ghost var layer := next;
      used := used + next;
      next := NextLayer(index, participants, used);
      NextIsLinked(pool, index, layer, participants, used, next);
    }
    ClosedHasCluster(pool, used, start);
  }

  // A search was made in the cluster of `i`.
  ghost predicate Started(pool: Pool, starts: seq<nat>, i: nat) {
    exists k :: 0 <= k < |starts| && i in Cluster(pool, starts[k])
  }

  ghost predicate Apart(pool: Pool, starts: seq<nat>) {
    && (forall k :: 0 <= k < |starts| ==> starts[k] < |pool|)
    && forall k, m :: 0 <= k < m < |starts| ==> Cluster(pool, starts[k]) !! Cluster(pool, starts[m])
  }

  ghost predicate Right(pool: Pool, fees: seq<Amount>, sizes: seq<nat>, values: seq<Amount>, i: nat)
    requires |sizes| == |values| == |pool| && i < |pool|
  {
    sizes[i] == |Cluster(pool, i)| && values[i] == TotalOn(Fees(fees), Cluster(pool, i))
  }

  // Who has a size has the right one, and has it from a search of his cluster.
  ghost predicate Shared(pool: Pool, fees: seq<Amount>, sizes: seq<nat>, values: seq<Amount>, starts: seq<nat>)
    requires |sizes| == |values| == |pool|
  {
    && (forall i :: 0 <= i < |pool| && sizes[i] > 0 ==> Right(pool, fees, sizes, values, i))
    && forall i :: 0 <= i < |pool| ==> (sizes[i] > 0 <==> Started(pool, starts, i))
  }

  // Size and fees of the cluster of every transaction; `starts` are the transactions a search
  // was made from: one in every cluster.
  method ShareClusters(pool: Pool, fees: seq<Amount>) returns (sizes: seq<nat>, values: seq<Amount>, ghost starts: seq<nat>)
    requires |fees| == |pool|
    ensures |sizes| == |values| == |pool|
    ensures forall i :: 0 <= i < |pool| ==> Right(pool, fees, sizes, values, i)
    ensures forall i :: 0 <= i < |pool| ==> Started(pool, starts, i)
    ensures Apart(pool, starts)
  {
    var index := IndexParticipants(pool);
    sizes := seq(|pool|, _ => 0);
    values := seq(|pool|, _ => 0);
    starts := [];
    for i := 0 to |pool|
      invariant |sizes| == |values| == |pool|
      invariant Shared(pool, fees, sizes, values, starts) && Apart(pool, starts)
      invariant forall j :: 0 <= j < i ==> sizes[j] > 0
    {
      if sizes[i] == 0 {
        var used, size, value := Search(pool, fees, index, i);
        sizes, values, starts := Share(pool, fees, sizes, values, used, size, value, starts, i);
      }
    }
  }

  method Share(pool: Pool, fees: seq<Amount>, sizes: seq<nat>, values: seq<Amount>, used: set<nat>, size: nat, value: Amount,
               ghost starts: seq<nat>, ghost start: nat)
    returns (sizes': seq<nat>, values': seq<Amount>, ghost starts': seq<nat>)
    requires |sizes| == |values| == |pool| && Shared(pool, fees, sizes, values, starts) && Apart(pool, starts)
    requires start < |pool| && sizes[start] == 0 && used == Cluster(pool, start) && start in used
    requires size == |used| && value == TotalOn(Fees(fees), used)
    ensures |sizes'| == |values'| == |pool| && Shared(pool, fees, sizes', values', starts') && Apart(pool, starts')
    ensures forall i :: 0 <= i < |pool| && sizes[i] > 0 ==> sizes'[i] > 0
    ensures sizes'[start] > 0
  {
    sizes', values', starts' := sizes, values, starts + [start];
    var rest := used;
    while rest != {}
      invariant rest <= used && |sizes'| == |values'| == |pool|
      invariant forall i :: 0 <= i < |pool| && i in used && i !in rest ==> sizes'[i] == size && values'[i] == value
      invariant forall i :: 0 <= i < |pool| && (i !in used || i in rest) ==> sizes'[i] == sizes[i] && values'[i] == values[i]
      decreases rest
    {
      var i :| i in rest;
      sizes', values' := sizes'[i := size], values'[i := value];
      rest := rest - {i};
    }
    assert |used| > 0;
    NowStarted(pool, starts, start);
    StillApart(pool, fees, sizes, values, starts, start);
    forall i | i in used ensures Cluster(pool, i) == used { SameCluster(pool, start, i); }
    forall i | 0 <= i < |pool| && sizes'[i] > 0 ensures Right(pool, fees, sizes', values', i) {
      if i !in used { assert Right(pool, fees, sizes, values, i); }
    }
  }

  lemma NowStarted(pool: Pool, starts: seq<nat>, start: nat)
    ensures forall i: nat :: Started(pool, starts + [start], i) <==> Started(pool, starts, i) || i in Cluster(pool, start)
  {
    var starts' := starts + [start];
    forall i: nat ensures Started(pool, starts', i) <==> Started(pool, starts, i) || i in Cluster(pool, start) {
      if Started(pool, starts, i) {
        var k :| 0 <= k < |starts| && i in Cluster(pool, starts[k]);
        assert starts'[k] == starts[k];
      }
      if i in Cluster(pool, start) { assert starts'[|starts|] == start; }
    }
  }

  lemma StillApart(pool: Pool, fees: seq<Amount>, sizes: seq<nat>, values: seq<Amount>, starts: seq<nat>, start: nat)
    requires |sizes| == |values| == |pool| && Shared(pool, fees, sizes, values, starts) && Apart(pool, starts)
    requires start < |pool| && sizes[start] == 0
    ensures Apart(pool, starts + [start])
  {
    assert !Started(pool, starts, start);
    forall k | 0 <= k < |starts| ensures Cluster(pool, starts[k]) !! Cluster(pool, start) {
      assert start !in Cluster(pool, starts[k]);
      forall i | i in Cluster(pool, start) ensures i !in Cluster(pool, starts[k]) {
        SameCluster(pool, start, i);
        if i in Cluster(pool, starts[k]) { SameCluster(pool, starts[k], i); }
      }
    }
  }
}
