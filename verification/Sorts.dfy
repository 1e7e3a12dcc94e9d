/**
 Which accepted blocks can be undone whatever sort the node's library has, and which sorts
 undo every accepted block.
 */
module Sorts {
  import opened Basics
  import opened Sponsorship
  import opened Books
  import opened SponsorIndex
  import opened DocumentValues
  import opened BlockDocs
  import opened Transactions
  import opened Blocks
  import opened Forks
  import opened Disorder
  import Runs

  // The same node, built with another library.
  function With(w: World, sort: Sort): World {
    w.(sort := sort)
  }

  // ----- Nothing but the undoing of a use looks at the sort -----

  lemma ChargedAnySort(w: World, sort: Sort, l: Ledger, tx: Tx, key: Address)
    requires Revertable(l, tx) && Balance(l, Owner(tx.action)) >= tx.fee
    ensures Charged(With(w, sort), l, tx, key) == Charged(w, l, tx, key)
  {}

  lemma ActionAnySort(w: World, sort: Sort, l: Ledger, tx: Tx, chain: bool)
    requires Inv(w, l)
    ensures CanApply(With(w, sort), l, tx) == CanApply(w, l, tx) && Apply(With(w, sort), l, tx, chain) == Apply(w, l, tx, chain)
  {}

  lemma TransactionAnySort(w: World, sort: Sort, l: Ledger, tx: Tx, key: Address)
    requires Inv(w, l) && Validated(tx) && Unseen(l, tx) && Ready(w, l, key != "")
    ensures ApplyTransaction(With(w, sort), l, tx, key) == ApplyTransaction(w, l, tx, key)
  {
    var v := With(w, sort);
    RefusedLeavesNoTrace(w, l, tx, key);
    RefusedLeavesNoTrace(v, l, tx, key);
    ActionAnySort(w, sort, l, tx, key != "");
    var l1 := Apply(w, l, tx, key != "");
    if CanApply(w, l, tx) && l1.Some? {
      ApplyKeepsInv(w, l, tx, key != "");
      InvReverts(w, l1.value, tx);
      if Balance(l1.value, Owner(tx.action)) >= tx.fee { ChargedAnySort(w, sort, l1.value, tx, key); }
    }
  }

  lemma {:induction false} AppliedAnySort(w: World, sort: Sort, l: Ledger, txs: seq<Tx>, key: Address)
    ensures AllApplied(With(w, sort), l, txs, key) <==> AllApplied(w, l, txs, key)
    ensures AllApplied(w, l, txs, key) ==> ApplyAll(With(w, sort), l, txs, key) == ApplyAll(w, l, txs, key)
    decreases |txs|
  {
    assert Inv(With(w, sort), l) <==> Inv(w, l);
    if txs == [] {
    } else if Inv(w, l) && Validated(txs[0]) && Unseen(l, txs[0]) && Ready(w, l, key != "") {
      TransactionAnySort(w, sort, l, txs[0], key);
      if ApplyTransaction(w, l, txs[0], key).Applied? {
        AppliedAnySort(w, sort, ApplyTransaction(w, l, txs[0], key).ledger, txs[1..], key);
      }
    }
  }

  lemma ViewedAnySort(w: World, sort: Sort, blk: Block)
    ensures Shares(With(w, sort), blk) == Shares(w, blk) && Viewed(With(w, sort), blk) == Viewed(w, blk)
  {}

  lemma RewardedAnySort(w: World, table: seq<Amount>, sort: Sort, l: Ledger, blk: Block)
    ensures Rewarded(With(w, sort), table, l, blk) == Rewarded(w, table, l, blk)
  {
    ViewedAnySort(w, sort, blk);
    var due := DueIn(w, l.docs, blk);
    assert DueIn(With(w, sort), l.docs, blk) == due;
    assert Grant(With(w, sort), table, l.docs, blk, due, Forward) == Grant(w, table, l.docs, blk, due, Forward);
  }

  lemma BlockAnySort(w: World, table: seq<Amount>, sort: Sort, l: Ledger, blk: Block)
    ensures Takes(With(w, sort), l, blk) <==> Takes(w, l, blk)
    ensures Takes(w, l, blk) ==> ApplyBlock(With(w, sort), table, l, blk) == ApplyBlock(w, table, l, blk)
  {
    AppliedAnySort(w, sort, l, blk.txs, blk.miner);
    if Takes(w, l, blk) { RewardedAnySort(w, table, sort, ApplyAll(w, l, blk.txs, blk.miner), blk); }
  }

  lemma OrderAnySort(w: World, sort: Sort, l: Ledger, blk: Block)
    requires Takes(w, l, blk) && Takes(With(w, sort), l, blk)
    ensures var d := ApplyAll(w, l, blk.txs, blk.miner).docs;
            && AllOk(d, w.chain.Now())
            && (OrderlyBlock(With(w, sort), l, blk) <==> AllOrderly(d, w.chain.Now(), Viewed(w, blk), sort))
  {
    AppliedAnySort(w, sort, l, blk.txs, blk.miner);
    ViewedAnySort(w, sort, blk);
    RevertAllUndoes(w, l, blk.txs, blk.miner);
    InvIsAllOk(w, ApplyAll(w, l, blk.txs, blk.miner));
  }

  // ----- One block -----

  // After the last time point of its unit, or with nothing due.
  predicate Undisputed(d: Docs, t: int, uri: Uri) {
    uri in d.books && Ok(d.books[uri]) && Fresh(d.books[uri], t) ==>
      t > d.books[uri].Last() || Scan(d.books[uri], t, "") == map[]
  }

  ghost predicate UndisputedBlock(w: World, l: Ledger, blk: Block)
    requires Takes(w, l, blk)
  {
    forall u <- Viewed(w, blk) :: Undisputed(ApplyAll(w, l, blk.txs, blk.miner).docs, w.chain.Now(), u)
  }

  lemma OrderlyAnySort(d: Docs, t: int, uri: Uri)
    requires uri in d.books ==> Ok(d.books[uri]) && Fresh(d.books[uri], t)
    ensures Undisputed(d, t, uri) ==> forall sort: Sort :: Orderly(d, t, uri, sort)
    ensures !Undisputed(d, t, uri) ==> !Orderly(d, t, uri, WorstSort(t))
  {
    if uri in d.books && t <= d.books[uri].Last() {
      EveryUndoReportsTheUse(d.books[uri], t);
      WorstUndoPays(d.books[uri], t);
    }
  }

  lemma OrderlyBlockAnySort(w: World, table: seq<Amount>, l: Ledger, blk: Block)
    requires Takes(w, l, blk)
    ensures forall sort: Sort :: Takes(With(w, sort), l, blk)
    ensures UndisputedBlock(w, l, blk) ==> forall sort: Sort :: OrderlyBlock(With(w, sort), l, blk)
    ensures !UndisputedBlock(w, l, blk) ==> !OrderlyBlock(With(w, WorstSort(w.chain.Now())), l, blk)
  {
    var t, d := w.chain.Now(), ApplyAll(w, l, blk.txs, blk.miner).docs;
    RevertAllUndoes(w, l, blk.txs, blk.miner);
    InvIsAllOk(w, ApplyAll(w, l, blk.txs, blk.miner));
    forall u ensures Undisputed(d, t, u) ==> forall sort: Sort :: Orderly(d, t, u, sort)
             ensures !Undisputed(d, t, u) ==> !Orderly(d, t, u, WorstSort(t)) {
      OrderlyAnySort(d, t, u);
    }
    forall sort: Sort ensures Takes(With(w, sort), l, blk) && (UndisputedBlock(w, l, blk) ==> OrderlyBlock(With(w, sort), l, blk)) {
      BlockAnySort(w, table, sort, l, blk);
      OrderAnySort(w, sort, l, blk);
    }
    OrderAnySort(w, WorstSort(t), l, blk);
  }

  // An accepted block is undone with every library if and only if each viewed unit was used
  // after its last time point or had nothing due; with a library that leaves the first sponsor
  // of a unit first, every accepted block is undone.
  lemma RevertBlockAnySort(w: World, table: seq<Amount>, l: Ledger, blk: Block)
    requires Takes(w, l, blk) && ApplyBlock(w, table, l, blk).Some?
    ensures (forall sort: Sort :: RevertBlock(With(w, sort), table, ApplyBlock(w, table, l, blk).value, blk) == Some(l))
            <==> UndisputedBlock(w, l, blk)
    ensures forall sort: Sort :: KeepsFirst(sort) ==> RevertBlock(With(w, sort), table, ApplyBlock(w, table, l, blk).value, blk) == Some(l)
  {
    OrderlyBlockAnySort(w, table, l, blk);
    var l2 := ApplyBlock(w, table, l, blk).value;
    forall sort: Sort ensures RevertBlock(With(w, sort), table, l2, blk) == if OrderlyBlock(With(w, sort), l, blk) then Some(l) else None {
      BlockAnySort(w, table, sort, l, blk);
      RevertBlockExactly(With(w, sort), table, l, blk);
    }
    forall sort: Sort | KeepsFirst(sort) ensures OrderlyBlock(With(w, sort), l, blk) { KeptFirstIsOrderly(With(w, sort), l, blk); }
    var worst := WorstSort(w.chain.Now());
    assert RevertBlock(With(w, worst), table, l2, blk) == Some(l) <==> OrderlyBlock(With(w, worst), l, blk);
  }

  // ----- Many blocks -----

  function PointWith(p: Point, sort: Sort): Point {
    Point(With(p.world, sort), p.ledger)
  }

  lemma AcceptedIs(table: seq<Amount>, w: World, l: Ledger, blk: Block)
    requires Takes(w, l, blk) && ApplyBlock(w, table, l, blk).Some?
    ensures AcceptOne(table, Point(w, l), blk) == Some(Point(Next(w), ApplyBlock(w, table, l, blk).value))
  {}

  lemma AcceptAnySort(table: seq<Amount>, p: Point, sort: Sort, blk: Block)
    requires AcceptOne(table, p, blk).Some?
    ensures AcceptOne(table, PointWith(p, sort), blk) == Some(PointWith(AcceptOne(table, p, blk).value, sort))
  {
    BlockAnySort(p.world, table, sort, p.ledger, blk);
    AcceptedIs(table, With(p.world, sort), p.ledger, blk);
    NextWith(p.world, sort);
  }

  lemma NextWith(w: World, sort: Sort)
    ensures Next(With(w, sort)) == With(Next(w), sort)
  {}

  lemma {:induction false} ChainAnySort(table: seq<Amount>, p: Point, sort: Sort, blocks: seq<Block>)
    requires ApplyChain(table, p, blocks).Some?
    ensures ApplyChain(table, PointWith(p, sort), blocks) == Some(PointWith(ApplyChain(table, p, blocks).value, sort))
  {
    if blocks == [] {
    } else {
      var init, last := blocks[..|blocks| - 1], blocks[|blocks| - 1];
      ChainAnySort(table, p, sort, init);
      AcceptAnySort(table, ApplyChain(table, p, init).value, sort, last);
    }
  }

  ghost predicate UndisputedOne(p: Point, blk: Block) {
    Takes(p.world, p.ledger, blk) && UndisputedBlock(p.world, p.ledger, blk)
  }

  lemma TurnAnySort(table: seq<Amount>, p: Point, sort: Sort, blocks: seq<Block>, n: nat)
    requires ApplyChain(table, p, blocks).Some? && n < |blocks|
    ensures Runs.At(Accepting(table), p, blocks, n).Some?
    ensures var m := Runs.At(Accepting(table), p, blocks, n).value;
            && Takes(m.world, m.ledger, blocks[n])
            && Runs.At(Accepting(table), PointWith(p, sort), blocks, n) == Some(PointWith(m, sort))
  {
    Runs.RunPrefix(Accepting(table), p, blocks, n);
    Runs.RunPrefix(Accepting(table), p, blocks, n + 1);
    assert blocks[..n + 1][..n] == blocks[..n];
    ChainAnySort(table, p, sort, blocks[..n]);
  }

  lemma UndisputedChain(table: seq<Amount>, p: Point, sort: Sort, blocks: seq<Block>)
    requires ApplyChain(table, p, blocks).Some? && Always(table, p, blocks, UndisputedOne)
    ensures OrderlyChain(table, PointWith(p, sort), blocks)
  {
    forall n | 0 <= n < |blocks| ensures Runs.HoldsAt(Accepting(table), PointWith(p, sort), blocks, OrderlyOne, n) {
      TurnAnySort(table, p, sort, blocks, n);
      assert Runs.HoldsAt(Accepting(table), p, blocks, UndisputedOne, n);
      var m := Runs.At(Accepting(table), p, blocks, n).value;
      OrderlyBlockAnySort(m.world, table, m.ledger, blocks[n]);
    }
  }

  lemma DisputedChain(table: seq<Amount>, p: Point, blocks: seq<Block>) returns (sort: Sort)
    requires ApplyChain(table, p, blocks).Some? && !Always(table, p, blocks, UndisputedOne)
    ensures !OrderlyChain(table, PointWith(p, sort), blocks)
  {
    var n :| 0 <= n < |blocks| && !Runs.HoldsAt(Accepting(table), p, blocks, UndisputedOne, n);
    var m := Runs.At(Accepting(table), p, blocks, n).value;
    sort := WorstSort(m.world.chain.Now());
    TurnAnySort(table, p, sort, blocks, n);
    OrderlyBlockAnySort(m.world, table, m.ledger, blocks[n]);
    assert !Runs.HoldsAt(Accepting(table), PointWith(p, sort), blocks, OrderlyOne, n);
  }

  ghost predicate Leaves(table: seq<Amount>, p: Point, blocks: seq<Block>, sort: Sort)
    requires ApplyChain(table, p, blocks).Some?
  {
    RevertChain(table, PointWith(ApplyChain(table, p, blocks).value, sort), blocks) == Some(PointWith(p, sort))
  }

  lemma LeavesExactly(table: seq<Amount>, p: Point, blocks: seq<Block>, sort: Sort)
    requires ApplyChain(table, p, blocks).Some?
    ensures Leaves(table, p, blocks, sort) <==> OrderlyChain(table, PointWith(p, sort), blocks)
  {
    ChainAnySort(table, p, sort, blocks);
    RevertChainExactly(table, PointWith(p, sort), blocks);
  }

  // The same for any chain of accepted blocks.
  lemma RevertChainAnySort(table: seq<Amount>, p: Point, blocks: seq<Block>)
    requires ApplyChain(table, p, blocks).Some?
    ensures (forall sort: Sort :: Leaves(table, p, blocks, sort)) <==> Always(table, p, blocks, UndisputedOne)
    ensures forall sort: Sort :: KeepsFirst(sort) ==> Leaves(table, p, blocks, sort)
  {
    forall sort: Sort | KeepsFirst(sort) || Always(table, p, blocks, UndisputedOne) ensures Leaves(table, p, blocks, sort) {
      LeavesExactly(table, p, blocks, sort);
      if KeepsFirst(sort) {
        ChainAnySort(table, p, sort, blocks);
        KeptFirstChain(table, PointWith(p, sort), blocks);
      } else {
        UndisputedChain(table, p, sort, blocks);
      }
    }
    if !Always(table, p, blocks, UndisputedOne) {
      var sort := DisputedChain(table, p, blocks);
      LeavesExactly(table, p, blocks, sort);
    }
  }
}
