/**
 Several blocks on top of one another: accepted from the first to the last, reverted from
 the last to the first, as a node does when it leaves its chain for another one.
 */
module Forks {
  import opened Basics
  import opened DocumentValues
  import opened BlockDocs
  import opened SponsorIndex
  import opened Transactions
  import opened Blocks
  import opened Runs

  // A node between two blocks.
  datatype Point = Point(world: World, ledger: Ledger)

  ghost predicate Sound(p: Point) {
    Inv(p.world, p.ledger) && Ready(p.world, p.ledger, true)
  }

  // ----- One block on top -----

  ghost predicate Accepted(table: seq<Amount>, p: Point, blk: Block) {
    Takes(p.world, p.ledger, blk) && ApplyBlock(p.world, table, p.ledger, blk).Some?
  }

  ghost function AcceptOne(table: seq<Amount>, p: Point, blk: Block): Option<Point> {
    if Accepted(table, p, blk) then Some(Point(Next(p.world), ApplyBlock(p.world, table, p.ledger, blk).value)) else None
  }

  // The block is taken off the chain first; the genesis block stays.
  function Previous(w: World): World
    requires w.chain.length > 0
  {
    w.(chain := w.chain.(length := w.chain.length - 1))
  }

  ghost function RevertOne(table: seq<Amount>, p: Point, blk: Block): Option<Point> {
    if p.world.chain.length == 0 then None
    else
      var w := Previous(p.world);
      var l := RevertBlock(w, table, p.ledger, blk);
      if l.None? then None else Some(Point(w, l.value))
  }

  ghost predicate OrderlyOne(p: Point, blk: Block) {
    Takes(p.world, p.ledger, blk) && OrderlyBlock(p.world, p.ledger, blk)
  }

  lemma AcceptOneKeeps(table: seq<Amount>, p: Point, blk: Block)
    requires AcceptOne(table, p, blk).Some?
    ensures Sound(AcceptOne(table, p, blk).value)
  {
    ApplyBlockKeepsInv(p.world, table, p.ledger, blk);
  }

  lemma RevertOneUndoes(table: seq<Amount>, p: Point, blk: Block)
    requires AcceptOne(table, p, blk).Some? && OrderlyOne(p, blk)
    ensures RevertOne(table, AcceptOne(table, p, blk).value, blk) == Some(p)
  {
    RevertBlockUndoes(p.world, table, p.ledger, blk);
    assert Previous(Next(p.world)) == p.world;
  }

  // ----- Many blocks -----

  ghost function Accepting(table: seq<Amount>): (Point, Block) -> Option<Point> {
    (p, blk) => AcceptOne(table, p, blk)
  }

  ghost function Reverting(table: seq<Amount>): (Point, Block) -> Option<Point> {
    (p, blk) => RevertOne(table, p, blk)
  }

  // Each block is accepted when its turn comes; None where one is not.
  ghost function ApplyChain(table: seq<Amount>, p: Point, blocks: seq<Block>): Option<Point> {
    Run(Accepting(table), p, blocks)
  }

  // From the last block to the first; None where one cannot be reverted.
  ghost function RevertChain(table: seq<Amount>, p: Point, blocks: seq<Block>): Option<Point> {
    Unrun(Reverting(table), p, blocks)
  }

  // Something holds of every block when its turn comes.
  ghost predicate Always(table: seq<Amount>, p: Point, blocks: seq<Block>, good: (Point, Block) -> bool) {
    Throughout(Accepting(table), p, blocks, good)
  }

  // What the blocks add up to, each seen when its turn comes.
  ghost function Along(table: seq<Amount>, p: Point, blocks: seq<Block>, f: (Point, Block) -> nat): nat {
    Sum(Accepting(table), p, blocks, f)
  }

  ghost predicate OrderlyChain(table: seq<Amount>, p: Point, blocks: seq<Block>) {
    Always(table, p, blocks, OrderlyOne)
  }

  // The invariant and the mirror of the own balance survive any number of blocks.
  lemma ChainKeepsInv(table: seq<Amount>, p: Point, blocks: seq<Block>)
    requires Sound(p) && ApplyChain(table, p, blocks).Some?
    ensures Sound(ApplyChain(table, p, blocks).value)
  {
    forall m, b | Sound(m) && Accepting(table)(m, b).Some? ensures Sound(Accepting(table)(m, b).value) {
      AcceptOneKeeps(table, m, b);
    }
    RunKeeps(Accepting(table), (m: Point) => Sound(m), p, blocks);
  }

  lemma {:induction false} ChainGrows(table: seq<Amount>, p: Point, blocks: seq<Block>)
    requires ApplyChain(table, p, blocks).Some?
    ensures ApplyChain(table, p, blocks).value.world == p.world.(chain := p.world.chain.(length := p.world.chain.length + |blocks|))
  {
    if blocks == [] {
    } else {
      ChainGrows(table, p, blocks[..|blocks| - 1]);
    }
  }

  // With a sort that leaves the first sponsor of a unit first, every chain is orderly.
  lemma KeptFirstChain(table: seq<Amount>, p: Point, blocks: seq<Block>)
    requires ApplyChain(table, p, blocks).Some? && KeepsFirst(p.world.sort)
    ensures OrderlyChain(table, p, blocks)
  {
    var step := Accepting(table);
    forall n | 0 <= n < |blocks| ensures HoldsAt(step, p, blocks, OrderlyOne, n) {
      RunPrefix(step, p, blocks, n);
      RunPrefix(step, p, blocks, n + 1);
      assert blocks[..n + 1][..n] == blocks[..n];
      ChainGrows(table, p, blocks[..n]);
      var m := At(step, p, blocks, n).value;
      KeptFirstIsOrderly(m.world, m.ledger, blocks[n]);
    }
  }

  // Whatever blocks were accepted, reverting them from the last to the first gives back the
  // ledger and the chain they were built on - if they are orderly, or the library's sort
  // leaves the first sponsor of a unit first.
  lemma RevertChainUndoes(table: seq<Amount>, p: Point, blocks: seq<Block>)
    requires ApplyChain(table, p, blocks).Some? && (OrderlyChain(table, p, blocks) || KeepsFirst(p.world.sort))
    ensures RevertChain(table, ApplyChain(table, p, blocks).value, blocks) == Some(p)
  {
    if KeepsFirst(p.world.sort) { KeptFirstChain(table, p, blocks); }
    var step, back := Accepting(table), Reverting(table);
    forall n | 0 <= n < |blocks| && At(step, p, blocks, n).Some? && step(At(step, p, blocks, n).value, blocks[n]).Some?
      ensures back(step(At(step, p, blocks, n).value, blocks[n]).value, blocks[n]) == At(step, p, blocks, n)
    {
      assert HoldsAt(step, p, blocks, OrderlyOne, n);
      RevertOneUndoes(table, At(step, p, blocks, n).value, blocks[n]);
    }
    UnrunUndoes(step, back, p, blocks);
  }

  // A node that leaves its own blocks for others ends where a node ends that never saw them.
  lemma SwitchForgets(table: seq<Amount>, p: Point, own: seq<Block>, others: seq<Block>)
    requires ApplyChain(table, p, own).Some? && (OrderlyChain(table, p, own) || KeepsFirst(p.world.sort))
    ensures var back := RevertChain(table, ApplyChain(table, p, own).value, own);
            back.Some? && ApplyChain(table, back.value, others) == ApplyChain(table, p, others)
  {
    RevertChainUndoes(table, p, own);
  }
}
