/**
 The transactions that lose their place when a node leaves its chain: which of them are offered
 to the pool again, in which order, and what becomes of them.
 */
module Reoffering {
  import opened Basics
  import opened Transactions
  import opened Blocks
  import opened ForkNode

  // ----- Queueing a transaction -----

  // What becomes of a transaction offered to the pool: None where the code throws, otherwise
  // the ledger after it, and whether it is in the pool.  An incomplete one is not applied.
  ghost function Queued(w: World, l: Ledger, tx: Tx, complete: bool): Option<(Ledger, bool)> {
    if !Inv(w, l) || !Validated(tx) || !Unseen(l, tx) then None
    else if !complete && CanApply(w, l, tx) then Some((l, true))
    else
      match ApplyTransaction(w, l, tx, "")
      case Applied(l') => Some((l', true))
      case Refused(l') => Some((l', false))
      case Threw => None
  }

  function PlaceFor(tx: Tx, complete: bool, queued: bool): seq<Pooled> {
    if queued then [Pooled(tx, complete)] else []
  }

  // A transaction that lost its place.  It is usable unless expired or in the new chain.
  datatype Returning = Returning(tx: Tx, complete: bool, usable: bool)

  function UsableTxs(back: seq<Returning>): seq<Tx> {
    if back == [] then [] else (if back[0].usable then [back[0].tx] else []) + UsableTxs(back[1..])
  }

  // All of them in order, and what the pool gets.
  ghost function Requeued(w: World, l: Ledger, back: seq<Returning>): Option<(Ledger, seq<Pooled>)>
    decreases |back|
  {
    if back == [] then Some((l, []))
    else if !back[0].usable then Requeued(w, l, back[1..])
    else
      var one := Queued(w, l, back[0].tx, back[0].complete);
      if one.None? then None
      else
        var rest := Requeued(w, one.value.0, back[1..]);
        if rest.None? then None
        else Some((rest.value.0, PlaceFor(back[0].tx, back[0].complete, one.value.1) + rest.value.1))
  }

  // Those of the abandoned blocks count as complete, those of the pool are asked again.
  function ReturningOf(txs: seq<Tx>, pool: seq<Tx>, complete: set<Hash>, usable: set<Hash>): seq<Returning> {
    seq(|txs|, i requires 0 <= i < |txs| => Returning(txs[i], true, txs[i].hash in usable)) +
    seq(|pool|, i requires 0 <= i < |pool| => Returning(pool[i], pool[i].hash in complete, pool[i].hash in usable))
  }

  // What a switch depends on besides the blocks: whether the chain is near its end, whether the
  // pool is cleared, and the hashes of complete transactions and of those still usable.
  datatype Choice = Choice(frozen: bool, clearPool: bool, complete: set<Hash>, usable: set<Hash>)

  function TxsOf(pool: seq<Pooled>): seq<Tx> {
    seq(|pool|, i requires 0 <= i < |pool| => pool[i].tx)
  }

  // ----- Which transactions are offered to the pool again -----

  // Where one of them was.
  datatype Place = InBlock(block: nat, index: nat) | InPool(index: nat)

  predicate Before(a: Place, b: Place) {
    match (a, b)
    case (InBlock(i, k), InBlock(j, m)) => i < j || (i == j && k < m)
    case (InBlock(_, _), InPool(_)) => true
    case (InPool(_), InBlock(_, _)) => false
    case (InPool(k), InPool(m)) => k < m
  }

  // There is a transaction at the place, and it is to come back: from an abandoned block, or
  // from a pool that is not cleared, and still usable.
  predicate ComesBack(p: Place, blocks: seq<Block>, common: nat, pool: seq<Pooled>, choice: Choice) {
    && !choice.frozen
    && match p
       case InBlock(i, k) => common <= i < |blocks| && k < |blocks[i].txs| && blocks[i].txs[k].hash in choice.usable
       case InPool(k) => !choice.clearPool && k < |pool| && pool[k].tx.hash in choice.usable
  }

  // As it comes back: complete from a block, otherwise asked again.
  predicate IsFrom(x: Pooled, p: Place, blocks: seq<Block>, pool: seq<Pooled>, choice: Choice) {
    match p
    case InBlock(i, k) => i < |blocks| && k < |blocks[i].txs| && x == Pooled(blocks[i].txs[k], true)
    case InPool(k) => k < |pool| && x == Pooled(pool[k].tx, pool[k].tx.hash in choice.complete)
  }

  // Exactly those are offered, each once, in the order of their places.
  ghost predicate Collected(offered: seq<Pooled>, places: seq<Place>, blocks: seq<Block>, common: nat, pool: seq<Pooled>, choice: Choice) {
    && |offered| == |places|
    && (forall n :: 0 <= n < |places| ==>
          ComesBack(places[n], blocks, common, pool, choice) && IsFrom(offered[n], places[n], blocks, pool, choice))
    && (forall m, n :: 0 <= m < n < |places| ==> Before(places[m], places[n]))
    && forall p: Place :: ComesBack(p, blocks, common, pool, choice) ==> p in places
  }

  // Those that are usable, as the pool would hold them.
  function Usables(back: seq<Returning>): seq<Pooled> {
    if back == [] then []
    else (if back[0].usable then [Pooled(back[0].tx, back[0].complete)] else []) + Usables(back[1..])
  }

  // And their places.
  function UsablePlaces(places: seq<Place>, back: seq<Returning>): seq<Place>
    requires |places| == |back|
  {
    if back == [] then [] else (if back[0].usable then [places[0]] else []) + UsablePlaces(places[1..], back[1..])
  }

  predicate Ascends(places: seq<Place>) {
    forall m, n :: 0 <= m < n < |places| ==> Before(places[m], places[n])
  }

  ghost predicate KeptAt(places: seq<Place>, back: seq<Returning>, n: nat, i: nat)
    requires |places| == |back|
  {
    && n < |UsablePlaces(places, back)| == |Usables(back)| && i < |back| && back[i].usable
    && UsablePlaces(places, back)[n] == places[i] && Usables(back)[n] == Pooled(back[i].tx, back[i].complete)
  }

  lemma {:induction false} KeptFrom(places: seq<Place>, back: seq<Returning>, n: nat) returns (i: nat)
    requires |places| == |back| && n < |UsablePlaces(places, back)|
    ensures KeptAt(places, back, n, i)
    decreases |back|
  {
    if back[0].usable && n == 0 {
      KeptLength(places[1..], back[1..]);
      i := 0;
    } else {
      var m := if back[0].usable then n - 1 else n;
      var j := KeptFrom(places[1..], back[1..], m);
      i := j + 1;
    }
  }

  lemma {:induction false} KeptLength(places: seq<Place>, back: seq<Returning>)
    requires |places| == |back|
    ensures |UsablePlaces(places, back)| == |Usables(back)|
    decreases |back|
  {
    if back == [] {
    } else {
      KeptLength(places[1..], back[1..]);
    }
  }

  lemma {:induction false} KeptHas(places: seq<Place>, back: seq<Returning>, i: nat)
    requires |places| == |back| && i < |back| && back[i].usable
    ensures places[i] in UsablePlaces(places, back)
    decreases |back|
  {
    if i == 0 {
    } else {
      KeptHas(places[1..], back[1..], i - 1);
    }
  }

  lemma {:induction false} KeptAscends(places: seq<Place>, back: seq<Returning>)
    requires |places| == |back| && Ascends(places)
    ensures Ascends(UsablePlaces(places, back))
    decreases |back|
  {
    if back == [] {
    } else {
      KeptAscends(places[1..], back[1..]);
      forall n | 0 <= n < |UsablePlaces(places[1..], back[1..])| ensures Before(places[0], UsablePlaces(places[1..], back[1..])[n]) {
        var i := KeptFrom(places[1..], back[1..], n);
        assert places[1..][i] == places[i + 1];
      }
    }
  }

  // ----- The places of all that could come back -----

  function BlockPlaces(blocks: seq<Block>, i: nat): seq<Place>
    requires i <= |blocks|
    decreases |blocks| - i
  {
    if i == |blocks| then []
    else seq(|blocks[i].txs|, k requires 0 <= k < |blocks[i].txs| => InBlock(i, k)) + BlockPlaces(blocks, i + 1)
  }

  // A place in a block from `i` on, with the transaction there.
  predicate PlacedFrom(blocks: seq<Block>, i: nat, p: Place, tx: Tx) {
    p.InBlock? && i <= p.block < |blocks| && p.index < |blocks[p.block].txs| && tx == blocks[p.block].txs[p.index]
  }

  ghost predicate AllPlaced(blocks: seq<Block>, i: nat, places: seq<Place>, txs: seq<Tx>) {
    && |places| == |txs| && Ascends(places)
    && forall n :: 0 <= n < |places| ==> PlacedFrom(blocks, i, places[n], txs[n])
  }

  lemma PlacedBefore(blocks: seq<Block>, i: nat, places: seq<Place>, txs: seq<Tx>)
    requires i < |blocks| && AllPlaced(blocks, i + 1, places, txs)
    ensures var own := seq(|blocks[i].txs|, k requires 0 <= k < |blocks[i].txs| => InBlock(i, k));
            AllPlaced(blocks, i, own + places, blocks[i].txs + txs)
  {
    var own := seq(|blocks[i].txs|, k requires 0 <= k < |blocks[i].txs| => InBlock(i, k));
    forall m, n | 0 <= m < n < |own + places| ensures Before((own + places)[m], (own + places)[n]) {
      if n >= |own| { assert PlacedFrom(blocks, i + 1, places[n - |own|], txs[n - |own|]); }
    }
    forall n | 0 <= n < |own + places| ensures PlacedFrom(blocks, i, (own + places)[n], (blocks[i].txs + txs)[n]) {
      if n >= |own| { assert PlacedFrom(blocks, i + 1, places[n - |own|], txs[n - |own|]); }
    }
  }

  lemma {:induction false} BlockPlacesFit(blocks: seq<Block>, i: nat)
    requires i <= |blocks|
    ensures AllPlaced(blocks, i, BlockPlaces(blocks, i), AllTxs(blocks[i..]))
    decreases |blocks| - i
  {
    if i < |blocks| {
      BlockPlacesFit(blocks, i + 1);
      assert blocks[i..][0] == blocks[i] && blocks[i..][1..] == blocks[i + 1..];
      PlacedBefore(blocks, i, BlockPlaces(blocks, i + 1), AllTxs(blocks[i + 1..]));
    }
  }

  lemma {:induction false} BlockPlacesHave(blocks: seq<Block>, i: nat, p: Place)
    requires p.InBlock? && i <= p.block < |blocks| && p.index < |blocks[p.block].txs|
    ensures p in BlockPlaces(blocks, i)
    decreases |blocks| - i
  {
    if i == p.block {
      var own := seq(|blocks[i].txs|, k requires 0 <= k < |blocks[i].txs| => InBlock(i, k));
      assert own[p.index] == p;
      assert BlockPlaces(blocks, i)[p.index] == p;
    } else {
      BlockPlacesHave(blocks, i + 1, p);
    }
  }

  function PoolPlaces(n: nat): seq<Place> {
    seq(n, k requires 0 <= k < n => InPool(k))
  }

  // What comes back, in the order in which the code collects it.
  function BackFrom(blocks: seq<Block>, common: nat, pool: seq<Pooled>, choice: Choice): seq<Returning>
    requires common <= |blocks|
  {
    if choice.frozen then []
    else ReturningOf(AllTxs(blocks[common..]), if choice.clearPool then [] else TxsOf(pool), choice.complete, choice.usable)
  }

  ghost function Candidates(blocks: seq<Block>, common: nat, pool: seq<Pooled>, choice: Choice): seq<Place>
    requires common <= |blocks|
  {
    if choice.frozen then [] else BlockPlaces(blocks, common) + PoolPlaces(if choice.clearPool then 0 else |pool|)
  }

  predicate AtPlace(r: Returning, p: Place, blocks: seq<Block>, common: nat, pool: seq<Pooled>, choice: Choice) {
    && (r.usable <==> ComesBack(p, blocks, common, pool, choice))
    && IsFrom(Pooled(r.tx, r.complete), p, blocks, pool, choice)
  }

  lemma CandidatesFit(blocks: seq<Block>, common: nat, pool: seq<Pooled>, choice: Choice)
    requires common <= |blocks|
    ensures var back, places := BackFrom(blocks, common, pool, choice), Candidates(blocks, common, pool, choice);
            && |back| == |places| && Ascends(places)
            && forall i :: 0 <= i < |back| ==> AtPlace(back[i], places[i], blocks, common, pool, choice)
  {
    BlockPlacesFit(blocks, common);
    var back, places := BackFrom(blocks, common, pool, choice), Candidates(blocks, common, pool, choice);
    var first := |BlockPlaces(blocks, common)|;
    if !choice.frozen {
      forall i | 0 <= i < |back| ensures AtPlace(back[i], places[i], blocks, common, pool, choice) {
        if i < first { assert PlacedFrom(blocks, common, places[i], AllTxs(blocks[common..])[i]); }
      }
      forall m, n | 0 <= m < n < |places| ensures Before(places[m], places[n]) {
        if m < first { assert PlacedFrom(blocks, common, places[m], AllTxs(blocks[common..])[m]); }
      }
    }
  }

  lemma CandidatesHave(blocks: seq<Block>, common: nat, pool: seq<Pooled>, choice: Choice, p: Place)
    requires common <= |blocks| && ComesBack(p, blocks, common, pool, choice)
    ensures p in Candidates(blocks, common, pool, choice)
  {
    if p.InBlock? {
      BlockPlacesHave(blocks, common, p);
    } else {
      assert PoolPlaces(|pool|)[p.index] == p;
    }
  }

  // The usable ones among them are exactly those that are to come back.
  lemma BackIsCollected(blocks: seq<Block>, common: nat, pool: seq<Pooled>, choice: Choice)
    requires common <= |blocks|
    ensures var back := BackFrom(blocks, common, pool, choice);
            && |Candidates(blocks, common, pool, choice)| == |back|
            && Collected(Usables(back), UsablePlaces(Candidates(blocks, common, pool, choice), back), blocks, common, pool, choice)
  {
    var back, places := BackFrom(blocks, common, pool, choice), Candidates(blocks, common, pool, choice);
    CandidatesFit(blocks, common, pool, choice);
    var kept := UsablePlaces(places, back);
    KeptLength(places, back);
    KeptAscends(places, back);
    forall n | 0 <= n < |kept|
      ensures ComesBack(kept[n], blocks, common, pool, choice) && IsFrom(Usables(back)[n], kept[n], blocks, pool, choice)
    {
      var i := KeptFrom(places, back, n);
      assert AtPlace(back[i], places[i], blocks, common, pool, choice);
    }
    forall p: Place | ComesBack(p, blocks, common, pool, choice) ensures p in kept {
      CandidatesHave(blocks, common, pool, choice, p);
      var i :| 0 <= i < |places| && places[i] == p;
      assert AtPlace(back[i], places[i], blocks, common, pool, choice);
      KeptHas(places, back, i);
    }
  }

  // ----- What becomes of them -----

  // Each is queued when its turn comes.
  ghost function OfferedAll(w: World, l: Ledger, offered: seq<Pooled>): Option<(Ledger, seq<Pooled>)>
    decreases |offered|
  {
    if offered == [] then Some((l, []))
    else
      var one := Queued(w, l, offered[0].tx, offered[0].complete);
      if one.None? then None
      else
        var rest := OfferedAll(w, one.value.0, offered[1..]);
        if rest.None? then None
        else Some((rest.value.0, PlaceFor(offered[0].tx, offered[0].complete, one.value.1) + rest.value.1))
  }

  lemma {:induction false} SameOffers(w: World, l: Ledger, back: seq<Returning>)
    ensures Requeued(w, l, back) == OfferedAll(w, l, Usables(back))
    decreases |back|
  {
    if back == [] {
    } else if !back[0].usable {
      assert Usables(back) == Usables(back[1..]);
      SameOffers(w, l, back[1..]);
    } else {
      var first := Pooled(back[0].tx, back[0].complete);
      assert Usables(back) == [first] + Usables(back[1..]) && Usables(back)[1..] == Usables(back[1..]);
      var one := Queued(w, l, back[0].tx, back[0].complete);
      if one.Some? { SameOffers(w, one.value.0, back[1..]); }
    }
  }

  // At its turn the transaction could not be applied, which left no trace.
  ghost predicate RefusedAtTurn(w: World, l: Ledger, offered: seq<Pooled>, n: nat)
    requires n < |offered|
    decreases n
  {
    if n == 0 then
      && Inv(w, l) && Validated(offered[0].tx) && Unseen(l, offered[0].tx)
      && ApplyTransaction(w, l, offered[0].tx, "") == Refused(l)
    else
      var one := Queued(w, l, offered[0].tx, offered[0].complete);
      one.Some? && RefusedAtTurn(w, one.value.0, offered[1..], n - 1)
  }

  lemma {:induction false} KeptOrRefused(w: World, l: Ledger, offered: seq<Pooled>, n: nat)
    requires OfferedAll(w, l, offered).Some? && n < |offered|
    ensures offered[n] in OfferedAll(w, l, offered).value.1 || RefusedAtTurn(w, l, offered, n)
    decreases n
  {
    var one := Queued(w, l, offered[0].tx, offered[0].complete);
    if n == 0 {
      RefusedLeavesNoTrace(w, l, offered[0].tx, "");
    } else {
      KeptOrRefused(w, one.value.0, offered[1..], n - 1);
    }
  }

  lemma {:induction false} NothingElse(w: World, l: Ledger, offered: seq<Pooled>)
    requires OfferedAll(w, l, offered).Some?
    ensures forall x <- OfferedAll(w, l, offered).value.1 :: x in offered
    decreases |offered|
  {
    if offered == [] {
    } else {
      NothingElse(w, Queued(w, l, offered[0].tx, offered[0].complete).value.0, offered[1..]);
    }
  }

  // Whatever was offered is in the pool or was refused, and the pool has nothing else.
  ghost predicate Settled(w: World, l: Ledger, offered: seq<Pooled>, pool: seq<Pooled>) {
    && (forall n :: 0 <= n < |offered| ==> offered[n] in pool || RefusedAtTurn(w, l, offered, n))
    && forall x <- pool :: x in offered
  }

  lemma AllSettled(w: World, l: Ledger, offered: seq<Pooled>)
    requires OfferedAll(w, l, offered).Some?
    ensures Settled(w, l, offered, OfferedAll(w, l, offered).value.1)
  {
    NothingElse(w, l, offered);
    forall n | 0 <= n < |offered| ensures offered[n] in OfferedAll(w, l, offered).value.1 || RefusedAtTurn(w, l, offered, n) {
      KeptOrRefused(w, l, offered, n);
    }
  }
}
