/** Leaving the own chain for another one on the node's stores: the pool, the blocks, the new blocks. */
module ForkNode {
  import opened Basics
  import opened DocumentValues
  import opened SponsorIndex
  import opened Transactions
  import opened Blocks
  import opened BlockNode
  import opened NodeStores
  import opened Forks
  import Balances

  // ----- The pool -----

  // The pool is emptied from its end, and the node's own balance is mirrored again.
  method RevertPool(node: Node, pool: seq<Pooled>, ghost l: Ledger) returns (ok: bool)
    requires node.Reached(l, Completed(pool), "")
    modifies node.state, node.docs, node.rights
    ensures ok && node.Valid() && Ready(node.World(), node.Value(), true) && node.Value() == Mirrored(l, node.state.node)
  {
    ok := RevertPooled(node, pool, l);
    MirroredIsReady(node.World(), l);
    var balance := node.state.GetBalance(node.state.node, false);
    node.state.SetBalance(node.state.node, balance, true);
  }

  method RevertPooled(node: Node, pool: seq<Pooled>, ghost l: Ledger) returns (ok: bool)
    requires node.Reached(l, Completed(pool), "")
    modifies node.state, node.docs, node.rights
    ensures ok && node.Valid() && node.Value() == l
  {
    assert pool[..|pool|] == pool;
    for i := |pool| downto 0
      invariant node.Reached(l, Completed(pool[..i]), "")
    {
      CompletedGrows(pool, i);
      if pool[i].complete { ok := node.RevertLast(l, Completed(pool[..i]), pool[i].tx, ""); }
    }
    assert Completed(pool[..0]) == [];
    node.ReachedStart(l, "");
    ok := true;
  }

  lemma CompletedGrows(pool: seq<Pooled>, n: nat)
    requires n < |pool|
    ensures Completed(pool[..n + 1]) == if pool[n].complete then Completed(pool[..n]) + [pool[n].tx] else Completed(pool[..n])
  {
    assert pool[..n + 1][..n] == pool[..n];
  }

  // ----- Blocks -----

  ghost function PointOf(node: Node): Point
    reads node`length, node.state, node.docs, node.rights
  {
    Point(node.World(), node.Value())
  }

  // The node stands where the blocks lead from `p`.
  ghost predicate Stands(node: Node, table: seq<Amount>, p: Point, blocks: seq<Block>)
    reads node`length, node.state, node.docs, node.rights
  {
    ApplyChain(table, p, blocks) == Some(PointOf(node)) && node.docs.Indexes()
  }

  lemma LastAccepted(table: seq<Amount>, p: Point, blocks: seq<Block>, n: nat)
    requires n < |blocks| && ApplyChain(table, p, blocks[..n + 1]).Some?
    ensures ApplyChain(table, p, blocks[..n]).Some?
    ensures var before, after := ApplyChain(table, p, blocks[..n]).value, ApplyChain(table, p, blocks[..n + 1]).value;
            && Takes(before.world, before.ledger, blocks[n])
            && (OrderlyChain(table, p, blocks[..n + 1]) <==> OrderlyChain(table, p, blocks[..n]) && OrderlyBlock(before.world, before.ledger, blocks[n]))
            && ApplyBlock(before.world, table, before.ledger, blocks[n]) == Some(after.ledger)
            && after.world == Next(before.world)
  {
    assert blocks[..n + 1][..n] == blocks[..n];
    Runs.ThroughoutLast(Accepting(table), p, blocks[..n + 1], OrderlyOne);
  }

  // The blocks above the common one, taken off the chain from the last to the first; this
  // gets through exactly if all of them were orderly.
  method RevertBlocks(node: Node, table: seq<Amount>, blocks: seq<Block>, ghost p: Point) returns (ok: bool)
    requires Stands(node, table, p, blocks)
    modifies node`length, node.state, node.docs, node.rights
    ensures ok <==> OrderlyChain(table, p, blocks)
    ensures ok ==> PointOf(node) == p && node.docs.Indexes()
  {
    assert blocks[..|blocks|] == blocks;
    for n := |blocks| downto 0
      invariant Stands(node, table, p, blocks[..n])
      invariant OrderlyChain(table, p, blocks) <==> OrderlyChain(table, p, blocks[..n])
    {
      ok := RevertNext(node, table, blocks, n, p);
      if !ok { return; }
    }
    ok := true;
  }

  method RevertNext(node: Node, table: seq<Amount>, blocks: seq<Block>, n: nat, ghost p: Point) returns (ok: bool)
    requires n < |blocks| && Stands(node, table, p, blocks[..n + 1])
    modifies node`length, node.state, node.docs, node.rights
    ensures !ok ==> !OrderlyChain(table, p, blocks[..n + 1])
    ensures ok ==> Stands(node, table, p, blocks[..n])
    ensures ok ==> (OrderlyChain(table, p, blocks[..n + 1]) <==> OrderlyChain(table, p, blocks[..n]))
  {
    LastAccepted(table, p, blocks, n);
    ghost var before := ApplyChain(table, p, blocks[..n]).value;
    ok := RevertLastBlock(node, table, blocks[n], before.world, before.ledger);
  }

  // The transactions of all blocks in order.
  function AllTxs(blocks: seq<Block>): seq<Tx> {
    if blocks == [] then [] else blocks[0].txs + AllTxs(blocks[1..])
  }

  lemma StaysNewAfterBlock(w: World, table: seq<Amount>, l: Ledger, blk: Block, rest: seq<Tx>)
    requires Takes(w, l, blk) && ApplyBlock(w, table, l, blk).Some? && AllNew(l, blk.txs + rest)
    ensures AllNew(ApplyBlock(w, table, l, blk).value, rest)
  {
    StaysNew(w, l, blk.txs, rest, blk.miner);
    GrantsKeepTable(w, table, l, blk);
  }

  lemma NewAtFirst(l: Ledger, txs: seq<Tx>, rest: seq<Tx>)
    requires AllNew(l, txs + rest)
    ensures AllNew(l, txs)
  {
    var all := txs + rest;
    forall i | 0 <= i < |txs| ensures Validated(txs[i]) && txs[i].hash !in l.docs.blockOf { assert txs[i] == all[i]; }
    forall i, j | 0 <= i < j < |txs| ensures txs[i].hash != txs[j].hash { assert txs[i] == all[i] && txs[j] == all[j]; }
  }

  // Received blocks, accepted from the first to the last; false as soon as one is refused.
  method AcceptBlocks(node: Node, table: seq<Amount>, blocks: seq<Block>) returns (ok: bool)
    requires node.Valid() && Ready(node.World(), node.Value(), true)
    requires AllNew(node.Value(), AllTxs(blocks)) && forall blk <- blocks :: blk.miner != ""
    modifies node`length, node.state, node.docs, node.rights
    ensures ok <==> ApplyChain(table, old(PointOf(node)), blocks).Some?
    ensures ok ==> ApplyChain(table, old(PointOf(node)), blocks) == Some(PointOf(node))
    ensures ok ==> node.Valid() && Ready(node.World(), node.Value(), true)
  {
    ghost var p := PointOf(node);
    for n := 0 to |blocks|
      invariant node.Valid() && Ready(node.World(), node.Value(), true)
      invariant ApplyChain(table, p, blocks[..n]) == Some(PointOf(node)) && AllNew(node.Value(), AllTxs(blocks[n..]))
    {
      ok := AcceptNext(node, table, blocks, n, p);
      if !ok { return; }
    }
    assert blocks[..|blocks|] == blocks;
    ok := true;
  }

  method AcceptNext(node: Node, table: seq<Amount>, blocks: seq<Block>, n: nat, ghost p: Point) returns (ok: bool)
    requires node.Valid() && Ready(node.World(), node.Value(), true) && n < |blocks| && blocks[n].miner != ""
    requires ApplyChain(table, p, blocks[..n]) == Some(PointOf(node)) && AllNew(node.Value(), AllTxs(blocks[n..]))
    modifies node`length, node.state, node.docs, node.rights
    ensures !ok ==> ApplyChain(table, p, blocks).None?
    ensures ok ==> node.Valid() && Ready(node.World(), node.Value(), true)
    ensures ok ==> ApplyChain(table, p, blocks[..n + 1]) == Some(PointOf(node)) && AllNew(node.Value(), AllTxs(blocks[n + 1..]))
  {
    ghost var before := PointOf(node);
    assert blocks[n..][1..] == blocks[n + 1..];
    NewAtFirst(node.Value(), blocks[n].txs, AllTxs(blocks[n + 1..]));
    ok := AcceptBlock(node, table, blocks[n]);
    OneBlockMore(table, p, blocks, n);
    if ok { StaysNewAfterBlock(before.world, table, before.ledger, blocks[n], AllTxs(blocks[n + 1..])); }
  }

  lemma OneBlockMore(table: seq<Amount>, p: Point, blocks: seq<Block>, n: nat)
    requires n < |blocks| && ApplyChain(table, p, blocks[..n]).Some?
    ensures ApplyChain(table, p, blocks[..n + 1]) == AcceptOne(table, ApplyChain(table, p, blocks[..n]).value, blocks[n])
    ensures AcceptOne(table, ApplyChain(table, p, blocks[..n]).value, blocks[n]).None? ==> ApplyChain(table, p, blocks).None?
  {
    assert blocks[..n + 1][..n] == blocks[..n];
    if ApplyChain(table, p, blocks).Some? { Runs.RunPrefix(Accepting(table), p, blocks, n + 1); }
  }

  // ----- Switching to another chain -----

  // Reverts the pool and the own blocks above the common block and accepts the others.  With
  // a sort that leaves the first sponsor of a unit first it gets through exactly if a node that
  // never had the own blocks would accept the others, with any other sort if the own blocks
  // were orderly besides; and the node ends in the very state of such a node.
  method SwitchChain(node: Node, table: seq<Amount>, pool: seq<Pooled>, own: seq<Block>, others: seq<Block>, ghost p: Point) returns (ok: bool)
    requires Sound(p) && ApplyChain(table, p, own).Some?
    requires var top := ApplyChain(table, p, own).value;
             node.World() == top.world && node.Reached(top.ledger, Completed(pool), "")
    requires AllNew(p.ledger, AllTxs(others)) && forall blk <- others :: blk.miner != ""
    modifies node`length, node.state, node.docs, node.rights
    ensures ok <==> OrderlyChain(table, p, own) && ApplyChain(table, p, others).Some?
    ensures KeepsFirst(p.world.sort) ==> OrderlyChain(table, p, own)
    ensures ok ==> ApplyChain(table, p, others) == Some(PointOf(node))
    ensures ok ==> node.Valid() && Ready(node.World(), node.Value(), true)
  {
    ghost var top := ApplyChain(table, p, own).value;
    ChainKeepsInv(table, p, own);
    MirroredIsReady(top.world, top.ledger);
    ok := RevertPool(node, pool, top.ledger);
    if KeepsFirst(p.world.sort) { KeptFirstChain(table, p, own); }
    ok := RevertBlocks(node, table, own, p);
    if !ok { return; }
    ok := AcceptBlocks(node, table, others);
  }
}
