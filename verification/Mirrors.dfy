/**
 Node and client side by side: what the node does to balances when it applies a transaction or a
 block, and what a client does that reads of it in the log.
 */
module Mirrors {
  import opened Basics
  import opened Rewards
  import opened Transactions
  import opened Payers
  import opened Blocks
  import opened Forks
  import opened NodeStores
  import Balances
  import FullNodes
  import Following
  import GetActions
  import History
  import Runs
  import Statements
  import C = Commander
  import L = ActionLogs

  // ----- One transaction -----

  // The log keeps the action, or whose it is, and the fee.
  predicate Logs(tx: Tx, t: L.TransactionLog) {
    && t.fee == tx.fee
    && match tx.action
       case Transfer(from, to, amount) => t.action == L.Transfer(from, to, amount)
       case Sponsor(s) => t.action == L.SponsorUnit(s.sponsor, s.uri, s.start, s.hours, s.amount)
       case CancelSponsor(sponsor, _, _) => t.action == L.Owned(sponsor)
       case UpdateStorage(storage, _, _) => t.action == L.Owned(storage)
       case UpdateAuthority(u) => t.action == L.AuthorizationUpdate(u.owner)
  }

  // What the client makes of it.
  lemma ReadsAs(tx: Tx, t: L.TransactionLog, authority: Address, a: Address)
    requires Logs(tx, t) && a != ""
    ensures C.InfoOf(t).None? <==> tx.action.UpdateAuthority?
    ensures !tx.action.UpdateAuthority? ==>
              && C.TxDelta(t, authority, a) == Gain(tx.action, tx.fee, authority, a) - Cost(tx.action, tx.fee, a)
              && (a == C.InfoOf(t).value.from <==> Cost(tx.action, tx.fee + 1, a) > 0)
              && (a == C.InfoOf(t).value.from ==> C.InfoOf(t).value.amount == Cost(tx.action, 0, a))
  {}

  // In a block the client changes every balance by exactly what the node changed it by, and
  // can pay for it where the node could.
  lemma ChangesAgree(w: World, l: Ledger, tx: Tx, key: Address, t: L.TransactionLog, a: Address)
    requires Inv(w, l) && Validated(tx) && Unseen(l, tx) && Ready(w, l, key != "")
    requires ApplyTransaction(w, l, tx, key).Applied? && Logs(tx, t) && !tx.action.UpdateAuthority? && key != "" && a != ""
    ensures C.InfoOf(t).Some? && C.Affords(Balance(l, a), C.InfoOf(t).value, a)
    ensures Balance(ApplyTransaction(w, l, tx, key).ledger, a) - Balance(l, a) == C.TxDelta(t, key, a)
  {
    AppliedExactly(w, l, tx, key);
    AppliedPays(w, l, tx, key, a);
    ReadsAs(tx, t, key, a);
  }

  // Whose balance the node changes gets an entry in his journal; and the others do not, but for
  // a miner who is not paid, or pays nothing but the fee, which is his own.
  lemma EntriesAgree(w: World, l: Ledger, tx: Tx, key: Address, t: L.TransactionLog, n: nat, a: Address)
    requires Inv(w, l) && Validated(tx) && Unseen(l, tx) && Ready(w, l, key != "")
    requires ApplyTransaction(w, l, tx, key).Applied? && Logs(tx, t) && !tx.action.UpdateAuthority? && key != "" && a != ""
    ensures C.InfoOf(t).Some?
    ensures var entry := C.OneEntry(n, t, key, a) == [(n, t)];
            var changed := Balance(ApplyTransaction(w, l, tx, key).ledger, a) != Balance(l, a);
            var info := C.InfoOf(t).value;
            && (changed ==> entry)
            && (entry && tx.fee > 0 && (a != key || info.from != key || info.amount > 0) ==> changed)
            && (entry && info.amount > 0 && a != key ==> changed)
  {
    AppliedPays(w, l, tx, key, a);
    ReadsAs(tx, t, key, a);
  }

  // ----- The transactions of a block -----

  predicate LogsAll(txs: seq<Tx>, ts: seq<L.TransactionLog>) {
    |txs| == |ts| && forall i :: 0 <= i < |txs| ==> Logs(txs[i], ts[i])
  }

  predicate NoUpdates(txs: seq<Tx>) {
    forall i :: 0 <= i < |txs| ==> !txs[i].action.UpdateAuthority?
  }

  // The ledger at the turn of a transaction, and that it is applied then.
  lemma TurnOf(w: World, l: Ledger, txs: seq<Tx>, n: nat, key: Address)
    requires AllApplied(w, l, txs, key) && n < |txs|
    ensures AllApplied(w, l, txs[..n], key) && AllApplied(w, l, txs[..n + 1], key)
    ensures var m := ApplyAll(w, l, txs[..n], key);
            && Inv(w, m) && Ready(w, m, key != "") && Validated(txs[n]) && Unseen(m, txs[n])
            && ApplyTransaction(w, m, txs[n], key) == Applied(ApplyAll(w, l, txs[..n + 1], key))
  {
    PrefixApplied(w, l, txs, n, key);
    PrefixApplied(w, l, txs, n + 1, key);
    LastOfPrefix(txs, n);
    AppliedFromTheBack(w, l, txs[..n], txs[n], key);
  }

  // At its turn every transaction changes the balances as the client does, and can be paid.
  lemma TurnAgrees(w: World, l: Ledger, txs: seq<Tx>, key: Address, ts: seq<L.TransactionLog>, n: nat, a: Address)
    requires AllApplied(w, l, txs, key) && LogsAll(txs, ts) && NoUpdates(txs) && n < |txs| && key != "" && a != ""
    ensures AllApplied(w, l, txs[..n], key) && AllApplied(w, l, txs[..n + 1], key)
    ensures var m := ApplyAll(w, l, txs[..n], key);
            && C.InfoOf(ts[n]).Some? && C.Affords(Balance(m, a), C.InfoOf(ts[n]).value, a)
            && Balance(ApplyAll(w, l, txs[..n + 1], key), a) - Balance(m, a) == C.TxDelta(ts[n], key, a)
  {
    TurnOf(w, l, txs, n, key);
    ChangesAgree(w, ApplyAll(w, l, txs[..n], key), txs[n], key, ts[n], a);
  }

  lemma DeltasMore(ts: seq<L.TransactionLog>, n: nat, key: Address, a: Address)
    requires n < |ts|
    ensures C.TxDeltas(ts[..n + 1], key, a) == C.TxDeltas(ts[..n], key, a) + C.TxDelta(ts[n], key, a)
  {
    assert ts[..n + 1][..n] == ts[..n];
  }

  lemma {:induction false} PrefixAgrees(w: World, l: Ledger, txs: seq<Tx>, key: Address, ts: seq<L.TransactionLog>, n: nat, a: Address)
    requires AllApplied(w, l, txs, key) && LogsAll(txs, ts) && NoUpdates(txs) && n <= |txs| && key != "" && a != ""
    ensures AllApplied(w, l, txs[..n], key)
    ensures Balance(ApplyAll(w, l, txs[..n], key), a) - Balance(l, a) == C.TxDeltas(ts[..n], key, a)
  {
    if n == 0 {
    } else {
      var m := n - 1;
      PrefixAgrees(w, l, txs, key, ts, m, a);
      TurnAgrees(w, l, txs, key, ts, m, a);
      DeltasMore(ts, m, key, a);
    }
  }

  // With the node's balances the client can pay for all of them.
  lemma AllAffordable(w: World, l: Ledger, txs: seq<Tx>, key: Address, ts: seq<L.TransactionLog>, accounts: set<Address>, base: Address -> int)
    requires AllApplied(w, l, txs, key) && LogsAll(txs, ts) && NoUpdates(txs) && key != ""
    requires forall a :: a != "" ==> base(a) == Balance(l, a)
    ensures C.AllAfford(accounts, base, ts, key)
  {
    forall i | 0 <= i < |ts| ensures C.AffordAt(accounts, base, ts, key, i) {
      ReadsAs(txs[i], ts[i], key, "nobody");
      forall a | a in accounts ensures C.Affords(base(a) + C.TxDeltas(ts[..i], key, a), C.InfoOf(ts[i]).value, a) {
        if a != "" {
          PrefixAgrees(w, l, txs, key, ts, i, a);
          TurnAgrees(w, l, txs, key, ts, i, a);
        }
      }
    }
  }

  // An update of authorizations stops the client.
  lemma UpdateStops(txs: seq<Tx>, key: Address, ts: seq<L.TransactionLog>, accounts: set<Address>, base: Address -> int)
    requires LogsAll(txs, ts) && C.AllAfford(accounts, base, ts, key)
    ensures NoUpdates(txs)
  {
    forall i | 0 <= i < |txs| ensures !txs[i].action.UpdateAuthority? {
      assert C.AffordAt(accounts, base, ts, key, i);
      ReadsAs(txs[i], ts[i], key, "nobody");
    }
  }

  // ----- A block -----

  predicate LogsBlock(blk: Block, b: L.BlockLog) {
    && b.authority == blk.miner && LogsAll(blk.txs, b.transactions) && LogsRewards(blk.rewards, b.rewards)
  }

  predicate LogsRewards(rewards: seq<Reward>, list: seq<L.RewardLog>) {
    |rewards| == |list| && forall i :: 0 <= i < |list| ==> list[i].to == rewards[i].to && list[i].amount == rewards[i].amount
  }

  lemma {:induction false} RewardsAgree(s: Balances.State, node: Address, rewards: seq<Reward>, list: seq<L.RewardLog>, a: Address)
    requires Balances.OkState(s, node) && Balances.Synced(s, node) && LogsRewards(rewards, list)
    ensures Lookup(IncreaseAll(s, node, rewards).accounts, a) == Lookup(s.accounts, a) + C.RewardDeltas(list, a)
  {
    if rewards == [] {
    } else {
      var n := |rewards| - 1;
      IncreaseAllKeeps(s, node, rewards[..n]);
      RewardsAgree(s, node, rewards[..n], list[..n], a);
      Balances.IncreaseKeeps(IncreaseAll(s, node, rewards[..n]), node, rewards[n].to, rewards[n].amount, true);
    }
  }

  // The actions in force give every account the balance it has on the ledger.
  ghost predicate Agrees(l: Ledger, stack: seq<L.Action>) {
    forall a :: a != "" ==> C.Worth(stack)(a) == Balance(l, a)
  }

  // The ledger after the transactions of a block and its rewards.
  ghost predicate Paid(w: World, l: Ledger, blk: Block, l': Ledger)
    requires Takes(w, l, blk)
  {
    l'.state == IncreaseAll(ApplyAll(w, l, blk.txs, blk.miner).state, w.node, blk.rewards)
  }

  lemma StateAfter(w: World, table: seq<Amount>, l: Ledger, blk: Block)
    requires Takes(w, l, blk) && ApplyBlock(w, table, l, blk).Some?
    ensures Paid(w, l, blk, ApplyBlock(w, table, l, blk).value)
  {}

  lemma BalanceAfter(w: World, l: Ledger, blk: Block, l': Ledger, b: L.BlockLog, a: Address)
    requires Takes(w, l, blk) && Paid(w, l, blk, l') && LogsBlock(blk, b) && NoUpdates(blk.txs) && a != ""
    ensures Balance(l', a) == Balance(l, a) + C.TxDeltas(b.transactions, b.authority, a) + C.RewardDeltas(b.rewards, a)
  {
    RevertAllUndoes(w, l, blk.txs, blk.miner);
    PrefixAgrees(w, l, blk.txs, blk.miner, b.transactions, |blk.txs|, a);
    assert blk.txs[..|blk.txs|] == blk.txs && b.transactions[..|blk.txs|] == b.transactions;
    RewardsAgree(ApplyAll(w, l, blk.txs, blk.miner).state, w.node, blk.rewards, b.rewards, a);
  }

  lemma AgreesAfter(w: World, l: Ledger, blk: Block, l': Ledger, b: L.BlockLog, stack: seq<L.Action>)
    requires Takes(w, l, blk) && Paid(w, l, blk, l') && LogsBlock(blk, b) && NoUpdates(blk.txs) && Agrees(l, stack)
    ensures Agrees(l', stack + [L.Block(b)])
  {
    forall a | a != "" ensures C.Worth(stack + [L.Block(b)])(a) == Balance(l', a) {
      BalanceAfter(w, l, blk, l', b, a);
      WorthOnTop(stack, b, a);
    }
  }

  lemma WorthOnTop(stack: seq<L.Action>, b: L.BlockLog, a: Address)
    ensures C.Worth(stack + [L.Block(b)])(a)
            == C.Worth(stack)(a) + C.TxDeltas(b.transactions, b.authority, a) + C.RewardDeltas(b.rewards, a)
  {
    C.BlockOnTop(stack, b);
  }

  lemma TakenExactly(w: World, l: Ledger, blk: Block, b: L.BlockLog, stack: seq<L.Action>, accounts: set<Address>)
    requires Takes(w, l, blk) && LogsBlock(blk, b) && Agrees(l, stack)
    ensures C.Payable(accounts, stack + [L.Block(b)]) <==> C.Payable(accounts, stack) && NoUpdates(blk.txs)
  {
    C.BlockPayable(accounts, stack, b);
    if NoUpdates(blk.txs) {
      AllAffordable(w, l, blk.txs, blk.miner, b.transactions, accounts, C.Worth(stack));
    } else if C.AllAfford(accounts, C.Worth(stack), b.transactions, b.authority) {
      UpdateStops(blk.txs, b.authority, b.transactions, accounts, C.Worth(stack));
    }
  }

  // A block the node accepts is taken by the client exactly if it has no update of
  // authorizations, and then they agree again.
  lemma BlockAgrees(w: World, table: seq<Amount>, l: Ledger, blk: Block, b: L.BlockLog, stack: seq<L.Action>, accounts: set<Address>)
    requires Takes(w, l, blk) && ApplyBlock(w, table, l, blk).Some? && LogsBlock(blk, b) && Agrees(l, stack)
    ensures C.Payable(accounts, stack + [L.Block(b)]) <==> C.Payable(accounts, stack) && NoUpdates(blk.txs)
    ensures NoUpdates(blk.txs) ==> Agrees(ApplyBlock(w, table, l, blk).value, stack + [L.Block(b)])
  {
    TakenExactly(w, l, blk, b, stack, accounts);
    if NoUpdates(blk.txs) {
      StateAfter(w, table, l, blk);
      AgreesAfter(w, l, blk, ApplyBlock(w, table, l, blk).value, b, stack);
    }
  }

  // ----- A chain -----

  ghost predicate LogsBlocks(logged: Block -> L.BlockLog, blocks: seq<Block>) {
    forall i :: 0 <= i < |blocks| ==> LogsBlock(blocks[i], logged(blocks[i]))
  }

  predicate NoUpdatesIn(blocks: seq<Block>) {
    forall i :: 0 <= i < |blocks| ==> NoUpdates(blocks[i].txs)
  }

  lemma LastAgrees(table: seq<Amount>, p: Point, blocks: seq<Block>, b: L.BlockLog, below: seq<L.Action>, accounts: set<Address>)
    requires blocks != [] && ApplyChain(table, p, blocks).Some? && LogsBlock(blocks[|blocks| - 1], b)
    ensures var before, last := ApplyChain(table, p, blocks[..|blocks| - 1]), blocks[|blocks| - 1];
            && before.Some?
            && (Agrees(before.value.ledger, below) ==>
                  && (C.Payable(accounts, below + [L.Block(b)]) <==> C.Payable(accounts, below) && NoUpdates(last.txs))
                  && (NoUpdates(last.txs) ==> Agrees(ApplyChain(table, p, blocks).value.ledger, below + [L.Block(b)])))
  {
    var m := ApplyChain(table, p, blocks[..|blocks| - 1]).value;
    if Agrees(m.ledger, below) { BlockAgrees(m.world, table, m.ledger, blocks[|blocks| - 1], b, below, accounts); }
  }

  lemma LoggedLast(logged: Block -> L.BlockLog, blocks: seq<Block>, stack: seq<L.Action>)
    requires blocks != []
    ensures var init, last := blocks[..|blocks| - 1], blocks[|blocks| - 1];
            && stack + FullNodes.BlockActions(logged, blocks) == stack + FullNodes.BlockActions(logged, init) + [L.Block(logged(last))]
            && (NoUpdatesIn(blocks) <==> NoUpdatesIn(init) && NoUpdates(last.txs))
  {}

  lemma {:induction false} ChainAgrees(table: seq<Amount>, p: Point, blocks: seq<Block>, logged: Block -> L.BlockLog,
                                       stack: seq<L.Action>, accounts: set<Address>)
    requires ApplyChain(table, p, blocks).Some? && LogsBlocks(logged, blocks) && Agrees(p.ledger, stack)
    ensures var all := stack + FullNodes.BlockActions(logged, blocks);
            && (C.Payable(accounts, all) <==> C.Payable(accounts, stack) && NoUpdatesIn(blocks))
            && (NoUpdatesIn(blocks) ==> Agrees(ApplyChain(table, p, blocks).value.ledger, all))
  {
    if blocks == [] {
      assert stack + FullNodes.BlockActions(logged, blocks) == stack;
    } else {
      var init, last := blocks[..|blocks| - 1], blocks[|blocks| - 1];
      LastAgrees(table, p, blocks, logged(last), stack + FullNodes.BlockActions(logged, init), accounts);
      ChainAgrees(table, p, init, logged, stack, accounts);
      LoggedLast(logged, blocks, stack);
      C.BlockPayable(accounts, stack + FullNodes.BlockActions(logged, init), logged(last));
    }
  }

  // ----- The pool -----

  // The account pays for such an action.
  predicate PaysFor(action: Action, a: Address) {
    Cost(action, 1, a) > 0
  }

  // The fees of an account's transactions; the client takes them already in the pool.
  function FeesOf(txs: seq<Tx>, a: Address): Amount {
    if txs == [] then 0
    else FeesOf(txs[..|txs| - 1], a) + if PaysFor(txs[|txs| - 1].action, a) then txs[|txs| - 1].fee else 0
  }

  ghost predicate LogsPool(logged: Tx -> L.TransactionLog, txs: seq<Tx>) {
    forall i :: 0 <= i < |txs| ==> Logs(txs[i], logged(txs[i]))
  }

  // The client's balance and the fees together are the node's.
  ghost predicate AgreesBut(l: Ledger, stack: seq<L.Action>, txs: seq<Tx>) {
    forall a :: a != "" ==> C.Worth(stack)(a) + FeesOf(txs, a) == Balance(l, a)
  }

  // Whoever pays for the last of them has its amount, its fee and the fees of those before it.
  ghost predicate FeesFit(l: Ledger, txs: seq<Tx>, last: Tx, accounts: set<Address>) {
    forall a <- accounts :: a != "" && PaysFor(last.action, a) ==> Balance(l, a) >= Cost(last.action, 0, a) + FeesOf(txs, a) + last.fee
  }

  lemma ReadsInPool(tx: Tx, t: L.TransactionLog, a: Address, balance: int)
    requires Logs(tx, t) && Validated(tx) && !tx.action.UpdateAuthority? && a != ""
    ensures C.InfoOf(t).Some?
    ensures C.TxDelta(t, "", a) + (if PaysFor(tx.action, a) then tx.fee else 0) == Gain(tx.action, 0, "", a) - Cost(tx.action, 0, a)
    ensures C.Affords(balance, C.InfoOf(t).value, a) <==> (PaysFor(tx.action, a) ==> balance >= Cost(tx.action, 0, a) + tx.fee)
  {}

  lemma FeesMore(txs: seq<Tx>, tx: Tx, a: Address)
    ensures FeesOf(txs + [tx], a) == FeesOf(txs, a) + if PaysFor(tx.action, a) then tx.fee else 0
  {
    assert (txs + [tx])[..|txs|] == txs;
  }

  lemma PoolTurnTaken(l: Ledger, tx: Tx, t: L.TransactionLog, stack: seq<L.Action>, txs: seq<Tx>, accounts: set<Address>)
    requires Validated(tx) && Logs(tx, t) && AgreesBut(l, stack, txs)
    ensures C.Payable(accounts, stack + [L.Transaction(t)]) <==>
            C.Payable(accounts, stack) && !tx.action.UpdateAuthority? && FeesFit(l, txs, tx, accounts)
  {
    C.TransactionPayable(accounts, stack, t);
    if !tx.action.UpdateAuthority? {
      ReadsInPool(tx, t, "nobody", 0);
      forall a | a in accounts && a != ""
        ensures C.Affords(C.Worth(stack)(a), C.InfoOf(t).value, a) <==>
                (PaysFor(tx.action, a) ==> Balance(l, a) >= Cost(tx.action, 0, a) + FeesOf(txs, a) + tx.fee)
      {
        ReadsInPool(tx, t, a, C.Worth(stack)(a));
      }
    }
  }

  lemma PoolTurnAgrees(w: World, l: Ledger, tx: Tx, t: L.TransactionLog, stack: seq<L.Action>, txs: seq<Tx>)
    requires Inv(w, l) && Validated(tx) && Unseen(l, tx) && ApplyTransaction(w, l, tx, "").Applied?
    requires Logs(tx, t) && AgreesBut(l, stack, txs) && !tx.action.UpdateAuthority?
    ensures AgreesBut(ApplyTransaction(w, l, tx, "").ledger, stack + [L.Transaction(t)], txs + [tx])
  {
    C.TransactionOnTop(stack, t);
    var l' := ApplyTransaction(w, l, tx, "").ledger;
    forall a | a != "" ensures C.Worth(stack + [L.Transaction(t)])(a) + FeesOf(txs + [tx], a) == Balance(l', a) {
      AppliedPays(w, l, tx, "", a);
      ReadsInPool(tx, t, a, 0);
      FeesMore(txs, tx, a);
    }
  }

  // Every transaction fits at its turn.
  ghost predicate AllFeesFit(w: World, l: Ledger, txs: seq<Tx>, accounts: set<Address>)
    requires AllApplied(w, l, txs, "")
  {
    txs == [] ||
    var init, last := txs[..|txs| - 1], txs[|txs| - 1];
    PrefixApplied(w, l, txs, |txs| - 1, "");
    AllFeesFit(w, l, init, accounts) && FeesFit(ApplyAll(w, l, init, ""), init, last, accounts)
  }

  lemma LastPooled(w: World, l: Ledger, init: seq<Tx>, last: Tx, t: L.TransactionLog, below: seq<L.Action>, accounts: set<Address>)
    requires AllApplied(w, l, init, "") && AllApplied(w, l, init + [last], "") && Logs(last, t)
    requires AgreesBut(ApplyAll(w, l, init, ""), below, init)
    ensures C.Payable(accounts, below + [L.Transaction(t)]) <==>
            C.Payable(accounts, below) && !last.action.UpdateAuthority? && FeesFit(ApplyAll(w, l, init, ""), init, last, accounts)
    ensures !last.action.UpdateAuthority? ==> AgreesBut(ApplyAll(w, l, init + [last], ""), below + [L.Transaction(t)], init + [last])
  {
    AppliedFromTheBack(w, l, init, last, "");
    var m := ApplyAll(w, l, init, "");
    PoolTurnTaken(m, last, t, below, init, accounts);
    if !last.action.UpdateAuthority? { PoolTurnAgrees(w, m, last, t, below, init); }
  }

  lemma PooledLast(logged: Tx -> L.TransactionLog, txs: seq<Tx>, stack: seq<L.Action>)
    requires txs != []
    ensures var n := |txs| - 1;
            && stack + FullNodes.PoolActions(logged, txs)
               == stack + FullNodes.PoolActions(logged, txs[..n]) + [L.Transaction(logged(txs[n]))]
            && (NoUpdates(txs) <==> NoUpdates(txs[..n]) && !txs[n].action.UpdateAuthority?)
  {}

  lemma NothingPooled(l: Ledger, logged: Tx -> L.TransactionLog, stack: seq<L.Action>)
    requires Agrees(l, stack)
    ensures stack + FullNodes.PoolActions(logged, []) == stack && AgreesBut(l, stack, [])
  {}

  // The client takes the transactions of the pool exactly if they have no update of
  // authorizations and their payers can pay the fees besides; then it holds the fees less.
  lemma {:induction false} PoolAgrees(w: World, l: Ledger, txs: seq<Tx>, logged: Tx -> L.TransactionLog, stack: seq<L.Action>, accounts: set<Address>)
    requires AllApplied(w, l, txs, "") && LogsPool(logged, txs) && Agrees(l, stack)
    ensures var all := stack + FullNodes.PoolActions(logged, txs);
            && (C.Payable(accounts, all) <==> C.Payable(accounts, stack) && NoUpdates(txs) && AllFeesFit(w, l, txs, accounts))
            && (NoUpdates(txs) ==> AgreesBut(ApplyAll(w, l, txs, ""), all, txs))
  {
    if txs == [] {
      NothingPooled(l, logged, stack);
    } else {
      var n := |txs| - 1;
      var below := stack + FullNodes.PoolActions(logged, txs[..n]);
      assert txs[..n] + [txs[n]] == txs;
      PrefixApplied(w, l, txs, n, "");
      PoolAgrees(w, l, txs[..n], logged, stack, accounts);
      if NoUpdates(txs[..n]) { LastPooled(w, l, txs[..n], txs[n], logged(txs[n]), below, accounts); }
      PooledLast(logged, txs, stack);
      C.TransactionPayable(accounts, below, logged(txs[n]));
    }
  }

  // ----- The whole node -----

  // The genesis block has no transactions; its rewards are all there is.
  lemma GenesisAgrees(w: World, l: Ledger, rewards: seq<Reward>, first: L.BlockLog, accounts: set<Address>)
    requires l.state == Balances.State(map[], map[]) && first.transactions == [] && LogsRewards(rewards, first.rewards)
    ensures Agrees(FullNodes.AfterGenesis(w, l, rewards).ledger, [L.Block(first)]) && C.Payable(accounts, [L.Block(first)])
  {
    var none: seq<L.Action> := [];
    assert none + [L.Block(first)] == [L.Block(first)];
    C.BlockPayable(accounts, none, first);
    forall a | a != "" ensures C.Worth([L.Block(first)])(a) == Balance(FullNodes.AfterGenesis(w, l, rewards).ledger, a) {
      WorthOnTop(none, first, a);
      RewardsAgree(l.state, w.node, rewards, first.rewards, a);
    }
  }

  // The node logs what it does.
  ghost predicate LogsFaithfully(full: FullNodes.FullNode)
    reads full
  {
    && Agrees(full.start.ledger, [L.Block(full.first)]) && LogsBlocks(full.logged, full.blocks)
    && LogsPool(full.loggedTx, Completed(full.pool))
  }

  ghost predicate KnownToClients(full: FullNodes.FullNode)
    reads full
  {
    NoUpdatesIn(full.blocks) && NoUpdates(Completed(full.pool))
  }

  // What blocks and pool of a node say can be paid exactly if they have no update of
  // authorizations and the payers in the pool can pay the fees besides; and then it gives
  // every account its balance on the node, but for the fees of its pool transactions.
  lemma NodeAgrees(full: FullNodes.FullNode, table: seq<Amount>, accounts: set<Address>)
    requires full.Valid(table) && LogsFaithfully(full) && C.Payable(accounts, [L.Block(full.first)])
    ensures AllApplied(full.node.World(), full.top.ledger, Completed(full.pool), "")
    ensures C.Payable(accounts, full.InLog()) <==>
            KnownToClients(full) && AllFeesFit(full.node.World(), full.top.ledger, Completed(full.pool), accounts)
    ensures KnownToClients(full) ==> AgreesBut(full.node.Value(), full.InLog(), Completed(full.pool))
  {
    var first := [L.Block(full.first)];
    var below := first + FullNodes.BlockActions(full.logged, full.blocks);
    ChainAgrees(table, full.start, full.blocks, full.logged, first, accounts);
    if NoUpdatesIn(full.blocks) {
      PoolAgrees(full.node.World(), full.top.ledger, Completed(full.pool), full.loggedTx, below, accounts);
    } else {
      PrefixPayable(accounts, below, FullNodes.PoolActions(full.loggedTx, Completed(full.pool)));
    }
  }

  lemma PrefixPayable(accounts: set<Address>, below: seq<L.Action>, above: seq<L.Action>)
    requires !C.Payable(accounts, below)
    ensures !C.Payable(accounts, below + above)
  {
    assert (below + above)[..|below|] == below;
    if C.Payable(accounts, below + above) { Following.PayablePrefix(accounts, below + above, |below|); }
  }

  // A client that got through holds, for every account it follows, the balance on the node,
  // less the fees of the account's transactions in the pool.
  method Serve(full: FullNodes.FullNode, client: C.Client, ghost table: seq<Amount>) returns (ok: bool)
    requires full.Valid(table) && full.log.enabled && |full.log.actions| + 1 < WORD
    requires client.start <= |full.log.actions| && client.Image(GetActions.InForce(full.log.actions, client.start))
    requires LogsFaithfully(full) && C.Payable(client.accounts, [L.Block(full.first)])
    modifies client
    ensures ok <==> Following.Follows(full.log.actions, client.accounts, old(client.start))
    ensures ok ==> KnownToClients(full) && forall a <- client.accounts :: a != "" ==>
              Lookup(client.balances, a) + FeesOf(Completed(full.pool), a) == Balance(full.node.Value(), a)
  {
    ok := FullNodes.Serve(full, client, table);
    NodeAgrees(full, table, client.accounts);
  }

  lemma {:induction false} BlocksInLog(logged: Block -> L.BlockLog, blocks: seq<Block>, first: L.BlockLog)
    ensures C.BlockCount([L.Block(first)] + FullNodes.BlockActions(logged, blocks)) == 1 + |blocks|
  {
    var some := [L.Block(first)] + FullNodes.BlockActions(logged, blocks);
    if blocks == [] {
      assert some == [L.Block(first)] && some[..0] == [];
    } else {
      var n := |blocks| - 1;
      BlocksInLog(logged, blocks[..n], first);
      assert some[..|some| - 1] == [L.Block(first)] + FullNodes.BlockActions(logged, blocks[..n]);
    }
  }

  lemma {:induction false} PoolHasNoBlocks(stack: seq<L.Action>, logged: Tx -> L.TransactionLog, txs: seq<Tx>)
    ensures C.BlockCount(stack + FullNodes.PoolActions(logged, txs)) == C.BlockCount(stack)
  {
    if txs == [] {
      assert stack + FullNodes.PoolActions(logged, txs) == stack;
    } else {
      var n := |txs| - 1;
      PoolHasNoBlocks(stack, logged, txs[..n]);
      PooledLast(logged, txs, stack);
      C.SameCount(stack + FullNodes.PoolActions(logged, txs[..n]), logged(txs[n]));
    }
  }

  // What blocks alone say is the ledger of the chain.
  lemma ChainInLog(full: FullNodes.FullNode, table: seq<Amount>, a: Address)
    requires full.Valid(table) && LogsFaithfully(full) && NoUpdatesIn(full.blocks) && a != ""
    ensures var n := 1 + |full.blocks|;
            && n == C.BlockCount(full.InLog()) <= |full.InLog()|
            && Statements.WorthUpTo(full.InLog(), a)(n) == Balance(full.top.ledger, a) && Statements.WorthUpTo(full.InLog(), a)(0) == 0
  {
    var below := [L.Block(full.first)] + FullNodes.BlockActions(full.logged, full.blocks);
    assert full.InLog()[..1 + |full.blocks|] == below;
    Statements.WorthAt(full.InLog(), a, 1 + |full.blocks|);
    ChainAgrees(table, full.start, full.blocks, full.logged, [L.Block(full.first)], {});
    BlocksInLog(full.logged, full.blocks, full.first);
    PoolHasNoBlocks(below, full.loggedTx, Completed(full.pool));
  }

  // The history a client lists of an account over all blocks adds up to the balance the
  // account has on the node's chain.
  method FullStatement(full: FullNodes.FullNode, client: C.Client, a: Address, ghost table: seq<Amount>) returns (result: seq<History.HistoryItem>)
    requires full.Valid(table) && LogsFaithfully(full) && NoUpdatesIn(full.blocks)
    requires client.Image(full.InLog()) && C.BlocksFirst(full.InLog()) && |full.InLog()| + 1 < WORD
    requires a in client.accounts && a != ""
    ensures Statements.Net(result) == Balance(full.top.ledger, a)
  {
    ChainInLog(full, table, a);
    var q := History.Query(a, client.head, client.blocks);
    assert C.Txs(full.InLog())(a) == C.Recorded(full.InLog(), a) && C.Rws(full.InLog())(a) == C.Rewarded(full.InLog(), a);
    result := Statements.Statement(q, C.JournalAt(client.transactions, a), C.JournalAt(client.rewards, a), 0, 1 + |full.blocks|, full.InLog());
  }
}
