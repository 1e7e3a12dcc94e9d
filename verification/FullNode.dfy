/**
 A node with all its parts - stores, blocks, pool, action log - from its genesis block through
 pool transactions and switches to other chains.
 */
module FullNodes {
  import opened Basics
  import opened SponsorIndex
  import opened DocumentValues
  import opened Transactions
  import opened Rewards
  import opened Blocks
  import opened BlockNode
  import opened NodeStores
  import opened Forks
  import opened ForkNode
  import opened NodeLog
  import opened Reoffering
  import L = ActionLogs
  import Runs
  import Commander
  import Following
  import GetActions

  // ----- What the log says of blocks and pool -----

  function BlockActions(logged: Block -> L.BlockLog, blocks: seq<Block>): seq<L.Action> {
    seq(|blocks|, i requires 0 <= i < |blocks| => L.Action.Block(logged(blocks[i])))
  }

  function PoolActions(logged: Tx -> L.TransactionLog, txs: seq<Tx>): seq<L.Action> {
    seq(|txs|, i requires 0 <= i < |txs| => L.Action.Transaction(logged(txs[i])))
  }

  // ----- Queueing transactions -----

  // What a loop over them starts from.
  datatype Start = Start(world: World, ledger: Ledger, size: nat)

  ghost function Behind(first: seq<Pooled>, r: Option<(Ledger, seq<Pooled>)>): Option<(Ledger, seq<Pooled>)> {
    if r.None? then None else Some((r.value.0, first + r.value.1))
  }

  lemma {:induction false} CompletedBound(pool: seq<Pooled>)
    ensures |Completed(pool)| <= |pool|
  {
    if pool == [] {
    } else {
      CompletedBound(pool[..|pool| - 1]);
    }
  }

  lemma CompletedMore(pool: seq<Pooled>, tx: Tx, complete: bool)
    ensures Completed(pool + [Pooled(tx, complete)]) == if complete then Completed(pool) + [tx] else Completed(pool)
  {
    assert (pool + [Pooled(tx, complete)])[..|pool|] == pool;
  }

  // What was queued leads on from where the pool led before.
  lemma QueuedOnTop(w: World, l: Ledger, pool: seq<Pooled>, tx: Tx, complete: bool)
    requires AllApplied(w, l, Completed(pool), "")
    requires var m := ApplyAll(w, l, Completed(pool), ""); Validated(tx) && Unseen(m, tx)
    ensures var m := ApplyAll(w, l, Completed(pool), "");
            && Inv(w, m) && Ready(w, m, false)
            && (Queued(w, m, tx, complete).Some? ==>
                  var q := Queued(w, m, tx, complete).value;
                  var after := if q.1 then pool + [Pooled(tx, complete)] else pool;
                  AllApplied(w, l, Completed(after), "") && ApplyAll(w, l, Completed(after), "") == q.0)
  {
    var m := ApplyAll(w, l, Completed(pool), "");
    CompletedMore(pool, tx, complete);
    AppliedFromTheBack(w, l, Completed(pool), tx, "");
    RefusedLeavesNoTrace(w, m, tx, "");
  }

  // The stores of the node for one transaction: it is applied if it is complete or cannot be;
  // in the pool, the applied ones are the complete ones.
  method Offer(node: Node, tx: Tx, complete: bool, ghost l: Ledger, ghost pool: seq<Pooled>) returns (r: Option<bool>)
    requires node.Reached(l, Completed(pool), "") && Validated(tx) && tx.hash !in node.Value().docs.blockOf
    modifies node.state, node.docs, node.rights
    ensures match Queued(node.World(), old(node.Value()), tx, complete)
            case None => r.None?
            case Some(q) =>
              && r == Some(q.1) && node.Value() == q.0
              && node.Reached(l, Completed(if q.1 then pool + [Pooled(tx, complete)] else pool), "")
  {
    QueuedOnTop(node.World(), l, pool, tx, complete);
    if !complete {
      var reply := node.ActionCanApply(tx);
      if reply.Yes? { return Some(true); }
    }
    r := node.ApplyTx(tx, "");
  }

  lemma NewAfterQueued(w: World, l: Ledger, tx: Tx, complete: bool, rest: seq<Tx>)
    requires AllNew(l, [tx] + rest) && Queued(w, l, tx, complete).Some?
    ensures AllNew(Queued(w, l, tx, complete).value.0, rest)
  {
    RefusedLeavesNoTrace(w, l, tx, "");
    if ApplyTransaction(w, l, tx, "").Applied? { NewBeside(w, l, tx, rest, ""); }
    NewTail(l, l, tx, rest);
  }

  lemma BehindMore(all: Option<(Ledger, seq<Pooled>)>, first: seq<Pooled>, middle: Option<(Ledger, seq<Pooled>)>,
                   second: seq<Pooled>, rest: Option<(Ledger, seq<Pooled>)>)
    requires all == Behind(first, middle) && middle == Behind(second, rest)
    ensures all == Behind(first + second, rest)
  {
    if rest.Some? { assert first + (second + rest.value.1) == first + second + rest.value.1; }
  }

  lemma InPlace(pool: seq<Pooled>, tx: Tx, complete: bool, queued: bool)
    ensures pool + PlaceFor(tx, complete, queued) == if queued then pool + [Pooled(tx, complete)] else pool
  {}

  lemma BehindEnds(first: seq<Pooled>, l: Ledger)
    ensures Behind(first, Some((l, []))) == Some((l, first))
  {
    var none: seq<Pooled> := [];
    assert first + none == first;
  }

  lemma BehindNothing(r: Option<(Ledger, seq<Pooled>)>)
    ensures Behind([], r) == r
  {
    var none: seq<Pooled> := [];
    if r.Some? { assert none + r.value.1 == r.value.1; }
  }

  // The next of them.
  lemma RequeuedStep(w: World, l: Ledger, back: seq<Returning>, n: nat)
    requires n < |back| && AllNew(l, UsableTxs(back[n..]))
    ensures !back[n].usable ==>
              && Behind([], Requeued(w, l, back[n + 1..])) == Requeued(w, l, back[n..])
              && AllNew(l, UsableTxs(back[n + 1..]))
    ensures back[n].usable ==>
              && Validated(back[n].tx) && back[n].tx.hash !in l.docs.blockOf
              && var one := Queued(w, l, back[n].tx, back[n].complete);
                 if one.None? then Requeued(w, l, back[n..]).None?
                 else
                   && AllNew(one.value.0, UsableTxs(back[n + 1..]))
                   && Requeued(w, l, back[n..]) ==
                      Behind(PlaceFor(back[n].tx, back[n].complete, one.value.1), Requeued(w, one.value.0, back[n + 1..]))
  {
    assert back[n..][0] == back[n] && back[n..][1..] == back[n + 1..];
    var tx, rest := back[n].tx, UsableTxs(back[n + 1..]);
    if back[n].usable {
      assert UsableTxs(back[n..]) == [tx] + rest && UsableTxs(back[n..])[0] == tx;
      if Queued(w, l, tx, back[n].complete).Some? { NewAfterQueued(w, l, tx, back[n].complete, rest); }
    } else {
      assert UsableTxs(back[n..]) == rest;
      BehindNothing(Requeued(w, l, back[n + 1..]));
    }
  }

  lemma Parted(table: seq<Amount>, start: Point, blocks: seq<Block>, common: nat, p: Point)
    requires Sound(start) && common <= |blocks| && ApplyChain(table, start, blocks[..common]) == Some(p)
    ensures Sound(p) && ApplyChain(table, p, blocks[common..]) == ApplyChain(table, start, blocks)
  {
    assert blocks[..common] + blocks[common..] == blocks;
    Runs.RunJoins(Accepting(table), start, blocks[..common], blocks[common..]);
    ChainKeepsInv(table, start, blocks[..common]);
  }

  lemma JoinedWith(table: seq<Amount>, start: Point, kept: seq<Block>, p: Point, others: seq<Block>)
    requires ApplyChain(table, start, kept) == Some(p)
    ensures ApplyChain(table, start, kept + others) == ApplyChain(table, p, others)
  {
    Runs.RunJoins(Accepting(table), start, kept, others);
  }

  ghost function AfterGenesis(w: World, l: Ledger, rewards: seq<Reward>): Point {
    Point(Next(w), l.(state := IncreaseAll(l.state, w.node, rewards)))
  }

  lemma GenesisIsSound(w: World, l: Ledger, rewards: seq<Reward>)
    requires Inv(w, l) && Ready(w, l, true) && l.docs == Docs(map[], map[], map[], map[])
    ensures Sound(AfterGenesis(w, l, rewards))
  {
    IncreaseAllKeeps(l.state, w.node, rewards);
  }

  // The genesis block pays its rewards; nothing of it is checked.
  method PayGenesis(node: Node, rewards: seq<Reward>)
    requires node.Valid() && Ready(node.World(), node.Value(), true) && node.Value().docs == Docs(map[], map[], map[], map[])
    modifies node`length, node.state
    ensures PointOf(node) == AfterGenesis(old(node.World()), old(node.Value()), rewards)
    ensures Sound(PointOf(node)) && node.docs.Indexes()
  {
    ghost var w, l := node.World(), node.Value();
    GenesisIsSound(w, l, rewards);
    PayRewards(node, rewards);
    Advance(node, w, node.Value());
  }

  lemma FirstTxs(blocks: seq<Block>, n: nat, rest: seq<Tx>)
    requires n < |blocks|
    ensures AllTxs(blocks[n..]) + rest == blocks[n].txs + (AllTxs(blocks[n + 1..]) + rest)
  {
    assert blocks[n..][1..] == blocks[n + 1..] && blocks[n..][0] == blocks[n];
  }

  lemma NewBesideBlock(table: seq<Amount>, p: Point, blk: Block, rest: seq<Tx>)
    requires AcceptOne(table, p, blk).Some? && AllNew(p.ledger, blk.txs + rest)
    ensures AllNew(AcceptOne(table, p, blk).value.ledger, rest)
  {
    StaysNewAfterBlock(p.world, table, p.ledger, blk, rest);
  }

  // After `n` of the blocks, the transactions of the others and those kept apart are still new.
  ghost predicate NewBesideAt(table: seq<Amount>, p: Point, others: seq<Block>, rest: seq<Tx>, n: nat)
    requires n <= |others|
  {
    && ApplyChain(table, p, others[..n]).Some?
    && AllNew(ApplyChain(table, p, others[..n]).value.ledger, AllTxs(others[n..]) + rest)
  }

  lemma NewBesideNext(table: seq<Amount>, p: Point, others: seq<Block>, rest: seq<Tx>, n: nat)
    requires 0 < n <= |others| && ApplyChain(table, p, others).Some? && NewBesideAt(table, p, others, rest, n - 1)
    ensures NewBesideAt(table, p, others, rest, n)
  {
    Runs.RunPrefix(Accepting(table), p, others, n);
    OneBlockMore(table, p, others, n - 1);
    FirstTxs(others, n - 1, rest);
    NewBesideBlock(table, ApplyChain(table, p, others[..n - 1]).value, others[n - 1], AllTxs(others[n..]) + rest);
  }

  lemma NewBesideNone(table: seq<Amount>, p: Point, others: seq<Block>, rest: seq<Tx>)
    requires AllNew(p.ledger, AllTxs(others) + rest)
    ensures NewBesideAt(table, p, others, rest, 0)
  {
    assert others[..0] == [] && others[0..] == others;
  }

  // Blocks that are accepted do not use up the transactions kept apart from theirs.
  lemma {:induction false} NewBesideBlocks(table: seq<Amount>, p: Point, others: seq<Block>, rest: seq<Tx>, n: nat)
    requires n <= |others| && ApplyChain(table, p, others).Some? && AllNew(p.ledger, AllTxs(others) + rest)
    ensures NewBesideAt(table, p, others, rest, n)
  {
    if n == 0 {
      NewBesideNone(table, p, others, rest);
    } else {
      NewBesideBlocks(table, p, others, rest, n - 1);
      NewBesideNext(table, p, others, rest, n);
    }
  }

  lemma NoneBefore(rest: seq<Tx>)
    ensures AllTxs([]) + rest == rest
  {
    var none: seq<Tx> := [];
    assert none + rest == rest;
  }

  lemma NewAfterBlocks(table: seq<Amount>, p: Point, others: seq<Block>, rest: seq<Tx>)
    requires ApplyChain(table, p, others).Some? && AllNew(p.ledger, AllTxs(others) + rest)
    ensures AllNew(ApplyChain(table, p, others).value.ledger, rest)
  {
    NewBesideBlocks(table, p, others, rest, |others|);
    assert others[..|others|] == others && others[|others|..] == [];
    NoneBefore(rest);
  }

  /** The node. */
  class FullNode {
    const node: Node
    const log: L.ActionLog
    const first: L.BlockLog
    const logged: Block -> L.BlockLog
    const loggedTx: Tx -> L.TransactionLog
    ghost const start: Point
    ghost var top: Point
    var blocks: seq<Block>
    var pool: seq<Pooled>

    constructor (node: Node, log: L.ActionLog, genesis: Block, first: L.BlockLog,
                 logged: Block -> L.BlockLog, loggedTx: Tx -> L.TransactionLog, ghost table: seq<Amount>)
      requires node.Valid() && Ready(node.World(), node.Value(), true) && node.Value().docs == Docs(map[], map[], map[], map[])
      requires log.Valid() && log.actions == []
      modifies node`length, node.state, log
      ensures Valid(table) && blocks == [] && pool == []
      ensures start == top == AfterGenesis(old(node.World()), old(node.Value()), genesis.rewards)
    {
      this.node, this.log, this.first, this.logged, this.loggedTx := node, log, first, logged, loggedTx;
      start, top := AfterGenesis(node.World(), node.Value(), genesis.rewards), AfterGenesis(node.World(), node.Value(), genesis.rewards);
      blocks, pool := [], [];
      new;
      PayGenesis(node, genesis.rewards);
      assert L.Stack([]) == [];
      Push(log, L.Action.Block(first), []);
      assert InLog() == [L.Action.Block(first)];
    }

    ghost function InLog(): seq<L.Action>
      reads this
    {
      [L.Action.Block(first)] + BlockActions(logged, blocks) + PoolActions(loggedTx, Completed(pool))
    }

    // The blocks lead from where the genesis block left the node to `top`, and `queue` from there
    // to the ledger at hand.
    ghost predicate StandsWith(table: seq<Amount>, queue: seq<Pooled>)
      reads this`blocks, this`top, node`length, node.state, node.docs, node.rights
    {
      && Sound(start) && ApplyChain(table, start, blocks) == Some(top)
      && node.World() == top.world && node.Reached(top.ledger, Completed(queue), "")
    }

    // And the log says so.
    ghost predicate Valid(table: seq<Amount>)
      reads this, node`length, node.state, node.docs, node.rights, log
    {
      StandsWith(table, pool) && LogTells(log, InLog())
    }

    lemma InLogGrows(tx: Tx, complete: bool)
      ensures var after := pool + [Pooled(tx, complete)];
              [L.Action.Block(first)] + BlockActions(logged, blocks) + PoolActions(loggedTx, Completed(after))
              == if complete then InLog() + [L.Action.Transaction(loggedTx(tx))] else InLog()
    {
      CompletedMore(pool, tx, complete);
      if complete {
        assert PoolActions(loggedTx, Completed(pool) + [tx]) == PoolActions(loggedTx, Completed(pool)) + [L.Action.Transaction(loggedTx(tx))];
      }
    }

    // The stores take the transaction, or not.
    method Try(tx: Tx, complete: bool, ghost table: seq<Amount>) returns (r: Option<bool>)
      requires StandsWith(table, pool) && Validated(tx) && tx.hash !in node.Value().docs.blockOf
      modifies node.state, node.docs, node.rights
      ensures match Queued(node.World(), old(node.Value()), tx, complete)
              case None => r.None?
              case Some(q) =>
                r == Some(q.1) && node.Value() == q.0 && StandsWith(table, if q.1 then pool + [Pooled(tx, complete)] else pool)
    {
      r := Offer(node, tx, complete, top.ledger, pool);
    }

    // The transaction enters the pool; it is logged where it was applied.
    method Enter(tx: Tx, complete: bool, ghost table: seq<Amount>)
      requires StandsWith(table, pool + [Pooled(tx, complete)]) && LogTells(log, InLog()) && |log.actions| + 1 < WORD
      modifies this`pool, log
      ensures Valid(table) && pool == old(pool) + [Pooled(tx, complete)] && |log.actions| <= |old(log.actions)| + 1
    {
      InLogGrows(tx, complete);
      if complete { Push(log, L.Action.Transaction(loggedTx(tx)), InLog()); }
      pool := pool + [Pooled(tx, complete)];
    }

    // One transaction is offered to the pool.
    method Enqueue(tx: Tx, complete: bool, ghost table: seq<Amount>) returns (r: Option<bool>)
      requires Valid(table) && Validated(tx) && tx.hash !in node.Value().docs.blockOf && |log.actions| + 1 < WORD
      modifies this`pool, node.state, node.docs, node.rights, log
      ensures |log.actions| <= |old(log.actions)| + 1
      ensures match Queued(node.World(), old(node.Value()), tx, complete)
              case None => r.None?
              case Some(q) =>
                && r == Some(q.1) && Valid(table) && node.Value() == q.0
                && pool == if q.1 then old(pool) + [Pooled(tx, complete)] else old(pool)
    {
      r := Try(tx, complete, table);
      if r == Some(true) { Enter(tx, complete, table); }
    }

    // ----- Transactions that lost their place -----

    // Where the loop over them stands after `n`, having started with an empty pool.
    ghost predicate Halfway(from: Start, back: seq<Returning>, n: nat, table: seq<Amount>)
      requires n <= |back|
      reads this, node`length, node.state, node.docs, node.rights, log
    {
      && Valid(table) && node.World() == from.world && |log.actions| <= from.size + n
      && AllNew(node.Value(), UsableTxs(back[n..]))
      && Requeued(from.world, from.ledger, back) == Behind(pool, Requeued(from.world, node.Value(), back[n..]))
    }

    lemma HalfwayStarts(back: seq<Returning>, table: seq<Amount>)
      requires Valid(table) && pool == [] && AllNew(node.Value(), UsableTxs(back))
      ensures Halfway(Start(node.World(), node.Value(), |log.actions|), back, 0, table)
    {
      assert back[0..] == back;
      BehindNothing(Requeued(node.World(), node.Value(), back));
    }

    lemma HalfwayMore(from: Start, back: seq<Returning>, n: nat, was: Ledger, before: seq<Pooled>, one: seq<Pooled>, table: seq<Amount>)
      requires n < |back| && Valid(table) && node.World() == from.world && pool == before + one
      requires |log.actions| <= from.size + n + 1 && AllNew(node.Value(), UsableTxs(back[n + 1..]))
      requires Requeued(from.world, from.ledger, back) == Behind(before, Requeued(from.world, was, back[n..]))
      requires Requeued(from.world, was, back[n..]) == Behind(one, Requeued(from.world, node.Value(), back[n + 1..]))
      ensures Halfway(from, back, n + 1, table)
    {
      BehindMore(Requeued(from.world, from.ledger, back), before, Requeued(from.world, was, back[n..]), one,
                 Requeued(from.world, node.Value(), back[n + 1..]));
    }

    lemma HalfwayEnds(from: Start, back: seq<Returning>, table: seq<Amount>)
      requires Halfway(from, back, |back|, table)
      ensures Valid(table) && Requeued(from.world, from.ledger, back) == Some((node.Value(), pool))
    {
      BehindEnds(pool, node.Value());
    }

    method Requeue(back: seq<Returning>, ghost table: seq<Amount>) returns (ok: bool)
      requires Valid(table) && pool == [] && AllNew(node.Value(), UsableTxs(back)) && |log.actions| + |back| < WORD
      modifies this`pool, node.state, node.docs, node.rights, log
      ensures ok <==> Requeued(node.World(), old(node.Value()), back).Some?
      ensures ok ==> Valid(table) && Requeued(node.World(), old(node.Value()), back) == Some((node.Value(), pool))
    {
      ghost var from := Start(node.World(), node.Value(), |log.actions|);
      HalfwayStarts(back, table);
      for n := 0 to |back|
        invariant Halfway(from, back, n, table)
      {
        ok := RequeueNext(from, back, n, table);
        if !ok { return; }
      }
      HalfwayEnds(from, back, table);
      ok := true;
    }

    method RequeueNext(ghost from: Start, back: seq<Returning>, n: nat, ghost table: seq<Amount>) returns (ok: bool)
      requires n < |back| && Halfway(from, back, n, table) && from.size + |back| < WORD
      modifies this`pool, node.state, node.docs, node.rights, log
      ensures !ok ==> Requeued(from.world, from.ledger, back).None?
      ensures ok ==> Halfway(from, back, n + 1, table)
    {
      ghost var l, before := node.Value(), pool;
      RequeuedStep(from.world, l, back, n);
      if !back[n].usable {
        InPlace(before, back[n].tx, true, false);
        HalfwayMore(from, back, n, l, before, [], table);
        return true;
      }
      var r := Enqueue(back[n].tx, back[n].complete, table);
      if r.None? { return false; }
      InPlace(before, back[n].tx, back[n].complete, r.value);
      HalfwayMore(from, back, n, l, before, PlaceFor(back[n].tx, back[n].complete, r.value), table);
      return true;
    }

    // ----- Another chain -----

    ghost function Logged(some: seq<Block>): seq<L.Action> {
      [L.Action.Block(first)] + BlockActions(logged, some)
    }

    lemma InLogStartsWith(common: nat)
      requires common <= |blocks|
      ensures |InLog()| == 1 + |blocks| + |Completed(pool)|
      ensures InLog()[..|InLog()| - (|blocks| - common + |Completed(pool)|)] == Logged(blocks[..common])
    {}

    // The pool and the blocks above the common one are reverted in the log.
    method Unlog(common: nat) returns (ok: bool)
      requires LogTells(log, InLog()) && common <= |blocks| && |log.actions| + |blocks| + |pool| < WORD
      modifies log
      ensures ok && LogTells(log, Logged(blocks[..common])) && |log.actions| <= |old(log.actions)| + |blocks| - common + |pool|
    {
      CompletedBound(pool);
      InLogStartsWith(common);
      ok := Pop(log, |blocks| - common + |Completed(pool)|, InLog());
    }

    // The new blocks are logged.
    method Relog(kept: seq<Block>, others: seq<Block>)
      requires LogTells(log, Logged(kept)) && |log.actions| + |others| < WORD
      modifies log
      ensures LogTells(log, Logged(kept + others)) && |log.actions| <= |old(log.actions)| + |others|
    {
      assert kept + others[..0] == kept;
      for n := 0 to |others|
        invariant LogTells(log, Logged(kept + others[..n])) && |log.actions| <= |old(log.actions)| + n
      {
        assert Logged(kept + others[..n + 1]) == Logged(kept + others[..n]) + [L.Action.Block(logged(others[n]))];
        Push(log, L.Action.Block(logged(others[n])), Logged(kept + others[..n]));
      }
      assert kept + others[..|others|] == kept + others;
    }

    // The stores leave the blocks above the common one for the others.
    method Leave(common: nat, others: seq<Block>, table: seq<Amount>, ghost p: Point) returns (ok: bool)
      requires StandsWith(table, pool) && common <= |blocks| && ApplyChain(table, start, blocks[..common]) == Some(p)
      requires AllNew(p.ledger, AllTxs(others)) && forall blk <- others :: blk.miner != ""
      modifies node`length, node.state, node.docs, node.rights
      ensures ok <==> OrderlyChain(table, p, blocks[common..]) && ApplyChain(table, p, others).Some?
      ensures KeepsFirst(p.world.sort) ==> OrderlyChain(table, p, blocks[common..])
      ensures ok ==> ApplyChain(table, start, blocks[..common] + others) == Some(PointOf(node))
      ensures ok ==> node.Valid() && Ready(node.World(), node.Value(), true)
    {
      Parted(table, start, blocks, common, p);
      JoinedWith(table, start, blocks[..common], p, others);
      ok := ForkNode.SwitchChain(node, table, pool, blocks[common..], others, p);
    }

    // What comes back when the node leaves its blocks above the common one.
    function Back(common: nat, choice: Choice): seq<Returning>
      requires common <= |blocks|
      reads this
    {
      BackFrom(blocks, common, pool, choice)
    }

    method Install(common: nat, others: seq<Block>, ghost table: seq<Amount>)
      requires Sound(start) && common <= |blocks| && ApplyChain(table, start, blocks[..common] + others) == Some(PointOf(node))
      requires node.Valid() && Ready(node.World(), node.Value(), true) && LogTells(log, Logged(blocks[..common] + others))
      modifies this`blocks, this`pool, this`top
      ensures Valid(table) && blocks == old(blocks)[..common] + others && pool == [] && top == PointOf(node)
    {
      blocks, pool, top := blocks[..common] + others, [], PointOf(node);
      assert InLog() == Logged(blocks);
    }

    // Reverts the pool and the blocks above the common one and accepts the others.
    method Follow(common: nat, others: seq<Block>, table: seq<Amount>, ghost p: Point) returns (ok: bool)
      requires Valid(table) && common <= |blocks| && ApplyChain(table, start, blocks[..common]) == Some(p)
      requires AllNew(p.ledger, AllTxs(others)) && forall blk <- others :: blk.miner != ""
      requires |log.actions| + |blocks| + |pool| + |others| < WORD
      modifies this`blocks, this`pool, this`top, node`length, node.state, node.docs, node.rights, log
      ensures KeepsFirst(p.world.sort) ==> OrderlyChain(table, p, old(blocks)[common..])
      ensures ok <==> OrderlyChain(table, p, old(blocks)[common..]) && ApplyChain(table, p, others).Some?
      ensures ok ==> Valid(table) && blocks == old(blocks)[..common] + others && pool == []
      ensures ok ==> ApplyChain(table, p, others) == Some(top) && top == PointOf(node)
      ensures |log.actions| <= |old(log.actions)| + |old(blocks)| + |old(pool)| + |others|
    {
      ok := Unlog(common);
      ok := Leave(common, others, table, p);
      if !ok { return; }
      JoinedWith(table, start, blocks[..common], p, others);
      Relog(blocks[..common], others);
      Install(common, others, table);
    }

    // The usable ones are offered to the pool.
    method Reoffer(back: seq<Returning>, ghost table: seq<Amount>) returns (ok: bool)
      requires Valid(table) && pool == [] && AllNew(node.Value(), UsableTxs(back)) && |log.actions| + |back| < WORD
      modifies this`pool, node.state, node.docs, node.rights, log
      ensures ok <==> OfferedAll(node.World(), old(node.Value()), Usables(back)).Some?
      ensures ok ==> Valid(table) && OfferedAll(node.World(), old(node.Value()), Usables(back)) == Some((node.Value(), pool))
      ensures ok ==> Settled(node.World(), old(node.Value()), Usables(back), pool)
    {
      ghost var w, l := node.World(), node.Value();
      SameOffers(w, l, back);
      ok := Requeue(back, table);
      if ok { AllSettled(w, l, Usables(back)); }
    }

    // And offers the transactions that lost their place to the pool again: those of the blocks
    // left behind and then those of the pool, unless it is to be cleared, as far as they are
    // usable; none near the end of the chain.  It gets through exactly if the blocks left behind
    // were orderly - which they are with a sort that leaves the first sponsor of a unit first -, a
    // node that never had them would accept the others, and no transaction coming back throws;
    // and such a node is what it ends as, with the offered ones in its pool or refused.
    method SwitchChain(common: nat, others: seq<Block>, choice: Choice, table: seq<Amount>, ghost p: Point)
      returns (ok: bool, ghost offered: seq<Pooled>, ghost places: seq<Place>)
      requires Valid(table) && common <= |blocks| && ApplyChain(table, start, blocks[..common]) == Some(p)
      requires AllNew(p.ledger, AllTxs(others) + UsableTxs(Back(common, choice))) && forall blk <- others :: blk.miner != ""
      requires |log.actions| + |blocks| + |pool| + |others| + |Back(common, choice)| < WORD
      modifies this`blocks, this`pool, this`top, node`length, node.state, node.docs, node.rights, log
      ensures Collected(offered, places, old(blocks), common, old(pool), choice)
      ensures KeepsFirst(p.world.sort) ==> OrderlyChain(table, p, old(blocks)[common..])
      ensures var next := ApplyChain(table, p, others);
              ok <==> OrderlyChain(table, p, old(blocks)[common..]) && next.Some?
                      && OfferedAll(next.value.world, next.value.ledger, offered).Some?
      ensures ok ==>
                && Valid(table) && blocks == old(blocks)[..common] + others && ApplyChain(table, p, others) == Some(top)
                && OfferedAll(top.world, top.ledger, offered) == Some((node.Value(), pool))
                && Settled(top.world, top.ledger, offered, pool)
    {
      var back := Back(common, choice);
      BackIsCollected(blocks, common, pool, choice);
      offered, places := Usables(back), UsablePlaces(Candidates(blocks, common, pool, choice), back);
      NewAtFirst(p.ledger, AllTxs(others), UsableTxs(back));
      ok := Follow(common, others, table, p);
      if !ok { return; }
      NewAfterBlocks(table, p, others, UsableTxs(back));
      ok := Reoffer(back, table);
    }
  }

  // ----- Its clients -----

  // A client that follows the node's log gets through exactly if all its requests pass, and
  // then holds what the blocks and the pool of the node say.
  method Serve(full: FullNode, client: Commander.Client, ghost table: seq<Amount>) returns (ok: bool)
    requires full.Valid(table) && full.log.enabled && |full.log.actions| + 1 < WORD
    requires client.start <= |full.log.actions| && client.Image(GetActions.InForce(full.log.actions, client.start))
    modifies client
    ensures ok <==> Following.Follows(full.log.actions, client.accounts, old(client.start))
    ensures ok ==> client.Image(full.InLog()) && Commander.BlocksFirst(full.InLog())
  {
    ok := Following.Sync(full.log, client);
  }
}
