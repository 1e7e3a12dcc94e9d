/**
 What the history of an account adds up to: what came in less what went out is the change of the
 account's balance over the window asked for.
 */
module Statements {
  import opened Basics
  import opened ActionLogs
  import opened Journals
  import opened Commander
  import opened History

  // What an item did to the balance.
  function Effect(item: HistoryItem): int {
    match item.details
    case Received(_, _) => item.amount
    case Sent(_, _) => 0 - item.amount
    case Sponsored(_, _, _, _) => 0 - item.amount
    case SentFee(_, _) => 0 - item.amount
    case ReceivedFee(_, _) => item.amount
    case Granted(_) => item.amount
  }

  function Net(items: seq<HistoryItem>): int {
    if items == [] then 0 else Net(items[..|items| - 1]) + Effect(items[|items| - 1])
  }

  lemma {:induction false} NetConcat(a: seq<HistoryItem>, b: seq<HistoryItem>)
    ensures Net(a + b) == Net(a) + Net(b)
  {
    if b == [] {
      assert a + b == a;
    } else {
      NetConcat(a, b[..|b| - 1]);
      assert (a + b)[..|a + b| - 1] == a + b[..|b| - 1];
    }
  }

  // ----- One transaction, one reward -----

  lemma NetOne(item: HistoryItem)
    ensures Net([item]) == Effect(item)
  {
    assert [item][..0] == [];
  }

  // Two items, each of which may be missing.
  function Two(first: bool, a: HistoryItem, second: bool, b: HistoryItem): seq<HistoryItem> {
    (if first then [a] else []) + (if second then [b] else [])
  }

  lemma {:induction false} NetTwo(first: bool, a: HistoryItem, second: bool, b: HistoryItem)
    ensures Net(Two(first, a, second, b)) == (if first then Effect(a) else 0) + (if second then Effect(b) else 0)
  {
    NetConcat(if first then [a] else [], if second then [b] else []);
    NetOne(a);
    NetOne(b);
  }

  lemma {:induction false} TransferNet(q: Query, n: nat, tx: TransactionLog)
    requires tx.action.Transfer?
    ensures Net(ActionItems(q, n, tx)) ==
            (if q.address == tx.action.to then tx.action.amount else 0) - (if q.address == tx.action.from then tx.action.amount else 0)
  {
    var came := q.Item(n, tx.time, tx.action.amount, Received(tx.action.from, tx.hash));
    var went := q.Item(n, tx.time, tx.action.amount, Sent(tx.action.to, tx.hash));
    assert ActionItems(q, n, tx) == Two(tx.action.to == q.address, came, tx.action.from == q.address, went);
    NetTwo(tx.action.to == q.address, came, tx.action.from == q.address, went);
  }

  lemma {:induction false} SponsorNet(q: Query, n: nat, tx: TransactionLog)
    requires tx.action.SponsorUnit?
    ensures Net(ActionItems(q, n, tx)) == if q.address == tx.action.sponsor then 0 - tx.action.amount else 0
  {
    if q.address == tx.action.sponsor { NetOne(ActionItems(q, n, tx)[0]); }
  }

  lemma {:induction false} ActionNet(q: Query, n: nat, tx: TransactionLog)
    requires InfoOf(tx).Some? && q.address != ""
    ensures var info := InfoOf(tx).value;
            Net(ActionItems(q, n, tx)) == (if q.address == info.to then info.amount else 0) - (if q.address == info.from then info.amount else 0)
  {
    match tx.action
    case Transfer(_, _, _) => TransferNet(q, n, tx);
    case SponsorUnit(_, _, _, _, _) => SponsorNet(q, n, tx);
    case _ =>
  }

  lemma {:induction false} FeeNet(q: Query, n: nat, tx: TransactionLog, from: Address)
    requires InfoOf(tx).Some? && from == InfoOf(tx).value.from
    ensures Net(FeeItems(q, n, tx)) == (if q.address == q.Authority(n) then tx.fee else 0) - (if q.address == from then tx.fee else 0)
  {
    var paid := q.Item(n, tx.time, tx.fee, SentFee(q.Authority(n), tx.hash));
    var earned := q.Item(n, tx.time, tx.fee, ReceivedFee(from, tx.hash));
    var pays, earns := from == q.address && tx.fee != 0, q.Authority(n) == q.address && tx.fee != 0;
    assert FeeItems(q, n, tx) == Two(pays, paid, earns, earned);
    NetTwo(pays, paid, earns, earned);
  }

  lemma {:induction false} TransactionNet(q: Query, n: nat, tx: TransactionLog)
    requires InfoOf(tx).Some? && q.address != ""
    ensures Net(TransactionItems(q, n)(tx)) == TxDelta(tx, q.Authority(n), q.address)
  {
    var info := InfoOf(tx).value;
    TwoParts(q, n, tx);
    ActionNet(q, n, tx);
    FeeNet(q, n, tx, info.from);
    assert info.fee == tx.fee && TxDelta(tx, q.Authority(n), q.address) == Delta(info, q.Authority(n), q.address);
  }

  lemma {:induction false} TwoParts(q: Query, n: nat, tx: TransactionLog)
    ensures Net(TransactionItems(q, n)(tx)) == Net(ActionItems(q, n, tx)) + Net(FeeItems(q, n, tx))
  {
    NetConcat(ActionItems(q, n, tx), FeeItems(q, n, tx));
  }

  // ----- The items of a block -----

  lemma {:induction false} ConcatMapConcat<A, B>(f: A -> seq<B>, xs: seq<A>, ys: seq<A>)
    ensures ConcatMap(f, xs + ys) == ConcatMap(f, xs) + ConcatMap(f, ys)
  {
    if ys == [] {
      assert xs + ys == xs;
    } else {
      ConcatMapConcat(f, xs, ys[..|ys| - 1]);
      assert (xs + ys)[..|xs + ys| - 1] == xs + ys[..|ys| - 1];
    }
  }

  lemma ItemsConcat<T>(a: seq<(nat, T)>, b: seq<(nat, T)>)
    ensures Items(a + b) == Items(a) + Items(b)
  {}

  lemma ConcatMapOne<A, B>(f: A -> seq<B>, x: A)
    ensures ConcatMap(f, [x]) == f(x)
  {
    assert [x][..0] == [];
  }

  lemma EntryNet(q: Query, n: nat, tx: TransactionLog)
    requires q.address != ""
    ensures Net(ConcatMap(TransactionItems(q, n), Items(OneEntry(n, tx, q.Authority(n), q.address)))) == TxDelta(tx, q.Authority(n), q.address)
  {
    if OneEntry(n, tx, q.Authority(n), q.address) != [] {
      assert Items([(n, tx)]) == [tx];
      ConcatMapOne(TransactionItems(q, n), tx);
      TransactionNet(q, n, tx);
    }
  }

  lemma {:induction false} TransactionsNet(q: Query, n: nat, txs: seq<TransactionLog>)
    requires q.address != ""
    ensures Net(ConcatMap(TransactionItems(q, n), Items(TxEntries(n, txs, q.Authority(n), q.address)))) == TxDeltas(txs, q.Authority(n), q.address)
  {
    if txs == [] {
    } else {
      var init, last := TxEntries(n, txs[..|txs| - 1], q.Authority(n), q.address), OneEntry(n, txs[|txs| - 1], q.Authority(n), q.address);
      TransactionsNet(q, n, txs[..|txs| - 1]);
      EntryNet(q, n, txs[|txs| - 1]);
      ItemsConcat(init, last);
      ConcatMapConcat(TransactionItems(q, n), Items(init), Items(last));
      NetConcat(ConcatMap(TransactionItems(q, n), Items(init)), ConcatMap(TransactionItems(q, n), Items(last)));
    }
  }

  lemma RewardNet(q: Query, n: nat, reward: RewardLog)
    ensures Net(ConcatMap(RewardItems(q, n), Items(OneReward(n, reward, q.address)))) == if reward.to == q.address then reward.amount else 0
  {
    if OneReward(n, reward, q.address) != [] {
      assert Items([(n, reward)]) == [reward];
      ConcatMapOne(RewardItems(q, n), reward);
      NetOne(RewardItems(q, n)(reward)[0]);
    }
  }

  lemma {:induction false} RewardsNet(q: Query, n: nat, rewards: seq<RewardLog>)
    ensures Net(ConcatMap(RewardItems(q, n), Items(RewardEntries(n, rewards, q.address)))) == RewardDeltas(rewards, q.address)
  {
    if rewards == [] {
    } else {
      var last := rewards[|rewards| - 1];
      var init, more := RewardEntries(n, rewards[..|rewards| - 1], q.address), OneReward(n, last, q.address);
      assert RewardEntries(n, rewards, q.address) == init + more;
      RewardsNet(q, n, rewards[..|rewards| - 1]);
      RewardNet(q, n, last);
      ItemsConcat(init, more);
      ConcatMapConcat(RewardItems(q, n), Items(init), Items(more));
      NetConcat(ConcatMap(RewardItems(q, n), Items(init)), ConcatMap(RewardItems(q, n), Items(more)));
    }
  }

  // What is asked of a client that mirrors the actions in force.
  ghost predicate Asks(q: Query, stack: seq<Action>) {
    BlocksFirst(stack) && q.address != "" && q.blocks == Infos(stack)
  }

  lemma {:induction false} InfosOfBlocks(stack: seq<Action>, n: nat)
    requires BlocksFirst(stack) && n < |stack| && stack[n].Block?
    ensures n < |Infos(stack)| && Infos(stack)[n] == InfoOfBlock(stack[n].block)
    decreases |stack|
  {
    var below := stack[..|stack| - 1];
    if n == |stack| - 1 {
      BlocksBelow(stack, n);
    } else {
      assert below[n] == stack[n];
      assert forall i, j :: 0 <= i < j < |below| && below[i].Transaction? ==> below[j].Transaction? by {
        forall i, j | 0 <= i < j < |below| && below[i].Transaction? ensures below[j].Transaction? { assert stack[i].Transaction?; }
      }
      InfosOfBlocks(below, n);
    }
  }

  lemma BlocksBelow(stack: seq<Action>, n: nat)
    requires BlocksFirst(stack) && n < |stack| && stack[n].Block?
    ensures |Infos(stack[..n])| == BlockCount(stack[..n]) == n
  {
    assert forall i :: 0 <= i < n ==> stack[..n][i] == stack[i] && stack[i].Block?;
    OnlyBlocks(stack[..n], "");
    RewardedKnown(stack[..n], "");
  }

  // Every item of a block carries its number and confirmations; those of a transaction its time,
  // those of a reward the time of the block.
  predicate Carries(item: HistoryItem, q: Query, n: nat, time: int) {
    item.block == n && item.confirmations == q.Confirmations(n) && item.time == time
  }

  lemma {:induction false} TransactionsCarry(q: Query, n: nat, tx: TransactionLog)
    ensures forall i :: 0 <= i < |TransactionItems(q, n)(tx)| ==> Carries(TransactionItems(q, n)(tx)[i], q, n, tx.time)
  {}

  lemma {:induction false} RewardsCarry(q: Query, stack: seq<Action>, n: nat, reward: RewardLog)
    requires Asks(q, stack) && n < |stack| && stack[n].Block?
    ensures |RewardItems(q, n)(reward)| == 1
    ensures Carries(RewardItems(q, n)(reward)[0], q, n, stack[n].block.time)
    ensures RewardItems(q, n)(reward)[0].amount == reward.amount && RewardItems(q, n)(reward)[0].details == Granted(reward.kind)
  {
    InfosOfBlocks(stack, n);
  }

  // And names the other side: sender or receiver of a transfer, the unit and the span of a
  // sponsorship, the miner of the block or the payer of a fee.
  lemma {:induction false} ItemsName(q: Query, stack: seq<Action>, n: nat, tx: TransactionLog, item: HistoryItem)
    requires Asks(q, stack) && n < |stack| && stack[n].Block? && InfoOf(tx).Some? && item in TransactionItems(q, n)(tx)
    ensures match item.details
            case Received(sender, hash) => tx.action.Transfer? && sender == tx.action.from && hash == tx.hash && tx.action.to == q.address
            case Sent(receiver, hash) => tx.action.Transfer? && receiver == tx.action.to && hash == tx.hash && tx.action.from == q.address
            case Sponsored(uri, start, end, hash) =>
              && tx.action.SponsorUnit? && uri == tx.action.uri && hash == tx.hash && tx.action.sponsor == q.address
              && start == tx.action.start && end == start + tx.action.hours * 60 * 60
            case SentFee(miner, hash) => miner == stack[n].block.authority && hash == tx.hash && InfoOf(tx).value.from == q.address
            case ReceivedFee(payer, hash) => payer == InfoOf(tx).value.from && hash == tx.hash && stack[n].block.authority == q.address
            case Granted(_) => false
  {
    InfosOfBlocks(stack, n);
  }

  ghost function ItemsAt(q: Query, stack: seq<Action>, start: nat, count: nat): nat -> seq<HistoryItem> {
    BlockItems(q, JournalOf(Recorded(stack, q.address)), JournalOf(Rewarded(stack, q.address)), start, count)
  }

  // The items of a block are the change of balance it made.
  lemma {:induction false} BlockNet(q: Query, stack: seq<Action>, n: nat, start: nat, count: nat)
    requires Asks(q, stack) && n < |stack| && stack[n].Block? && InWindow(n, start, count)
    ensures Net(ItemsAt(q, stack, start, count)(n)) == Worth(stack[..n + 1])(q.address) - Worth(stack[..n])(q.address)
  {
    var b := stack[n].block;
    InfosOfBlocks(stack, n);
    assert q.Authority(n) == b.authority;
    HistoryOfBlock(q, stack, n, q.address, start, count);
    TransactionsNet(q, n, b.transactions);
    RewardsNet(q, n, b.rewards);
    NetConcat(ConcatMap(TransactionItems(q, n), Items(TxEntries(n, b.transactions, b.authority, q.address))),
              ConcatMap(RewardItems(q, n), Items(RewardEntries(n, b.rewards, q.address))));
    assert stack[..n + 1] == stack[..n] + [Block(b)];
    BlockOnTop(stack[..n], b);
  }

  // Nothing below the window, and in it each block's items add up to a step of `worth`.
  ghost predicate Steps(f: nat -> seq<HistoryItem>, worth: nat -> int, start: nat, end: nat) {
    forall n: nat :: n < end ==> StepAt(f, worth, start, n)
  }

  predicate StepAt(f: nat -> seq<HistoryItem>, worth: nat -> int, start: nat, n: nat) {
    if n < start then f(n) == [] else Net(f(n)) == worth(n + 1) - worth(n)
  }

  // Then a listing adds up to all steps.
  lemma {:induction false} ListingNet(f: nat -> seq<HistoryItem>, worth: nat -> int, start: nat, end: nat)
    requires Steps(f, worth, start, end)
    ensures end <= start ==> Listing(f, end) == []
    ensures start <= end ==> Net(Listing(f, end)) == worth(end) - worth(start)
    decreases end
  {
    if end == 0 {
    } else {
      var n := end - 1;
      ListingNet(f, worth, start, n);
      assert StepAt(f, worth, start, n);
      NetConcat(Listing(f, n), f(n));
    }
  }

  // The account's balance after the first `n` actions in force.
  ghost function WorthUpTo(stack: seq<Action>, a: Address): nat -> int {
    (n: nat) => if n <= |stack| then Worth(stack[..n])(a) else 0
  }

  lemma {:induction false} StepNet(q: Query, stack: seq<Action>, start: nat, count: nat, n: nat)
    requires Asks(q, stack) && n < start + count <= BlockCount(stack) <= |stack| < WORD
    ensures StepAt(ItemsAt(q, stack, start, count), WorthUpTo(stack, q.address), start, n)
  {
    InWindowOf(start, count, n);
    CountOfBlocks(stack, n);
    if n >= start { BlockNet(q, stack, n, start, count); }
  }

  lemma {:induction false} AllSteps(q: Query, stack: seq<Action>, start: nat, count: nat)
    requires Asks(q, stack) && start + count <= BlockCount(stack) <= |stack| < WORD
    ensures Steps(ItemsAt(q, stack, start, count), WorthUpTo(stack, q.address), start, start + count)
  {
    forall n: nat | n < start + count ensures StepAt(ItemsAt(q, stack, start, count), WorthUpTo(stack, q.address), start, n) {
      StepNet(q, stack, start, count, n);
    }
  }

  // The items listed over a window are the change of balance from its start to its end.
  lemma {:induction false} ListingAtWindow(q: Query, stack: seq<Action>, start: nat, count: nat)
    requires Asks(q, stack) && start + count <= BlockCount(stack) <= |stack| < WORD
    ensures Net(Listing(ItemsAt(q, stack, start, count), start + count))
            == WorthUpTo(stack, q.address)(start + count) - WorthUpTo(stack, q.address)(start)
  {
    AllSteps(q, stack, start, count);
    ListingNet(ItemsAt(q, stack, start, count), WorthUpTo(stack, q.address), start, start + count);
  }

  lemma {:induction false} WorthAt(stack: seq<Action>, a: Address, n: nat)
    requires n <= |stack|
    ensures WorthUpTo(stack, a)(n) == Worth(stack[..n])(a)
  {}

  lemma InWindowOf(start: nat, count: nat, n: nat)
    requires start + count < WORD
    ensures InWindow(n, start, count) <==> start <= n < start + count
  {}

  lemma WindowEnds(start: nat, count: nat)
    requires start + count < WORD
    ensures forall n: nat :: InWindow(n, start, count) ==> n < start + count
  {
    forall n: nat | InWindow(n, start, count) ensures n < start + count { InWindowOf(start, count, n); }
  }

  lemma {:induction false} CountOfBlocks(stack: seq<Action>, n: nat)
    requires BlocksFirst(stack) && n < BlockCount(stack)
    ensures n < |stack| && stack[n].Block?
    decreases |stack|
  {
    var below := stack[..|stack| - 1];
    assert forall i, j :: 0 <= i < j < |below| && below[i].Transaction? ==> below[j].Transaction? by {
      forall i, j | 0 <= i < j < |below| && below[i].Transaction? ensures below[j].Transaction? { assert stack[i].Transaction?; }
    }
    if stack[|stack| - 1].Block? {
      assert forall i :: 0 <= i < |below| ==> below[i].Block?;
      OnlyBlocks(below, "");
    } else {
      CountOfBlocks(below, n);
    }
  }

  lemma Walks(q: Query, stack: seq<Action>)
    requires Asks(q, stack) && BlockCount(stack) + 1 < WORD
    ensures Walkable(q, JournalOf(Recorded(stack, q.address)), JournalOf(Rewarded(stack, q.address)))
  {
    MirrorIsWalkable(stack, q.address, q.head);
    assert q == Query(q.address, q.head, Infos(stack));
  }

  method ListWindow(q: Query, txs: Journal<TransactionLog>, rws: Journal<RewardLog>, start: nat, count: nat, ghost f: nat -> seq<HistoryItem>)
    returns (result: seq<HistoryItem>)
    requires Walkable(q, txs, rws) && start + count < WORD && f == BlockItems(q, txs, rws, start, count)
    ensures result == Listing(f, start + count)
  {
    WindowEnds(start, count);
    result := GetHistory(q, txs, rws, start, count, start + count);
  }

  // The history of an account over a window of blocks adds up to what the balance changed by.
  method Statement(q: Query, txs: Journal<TransactionLog>, rws: Journal<RewardLog>, start: nat, count: nat, ghost stack: seq<Action>)
    returns (result: seq<HistoryItem>)
    requires Asks(q, stack) && start + count <= BlockCount(stack) <= |stack| && |stack| + 1 < WORD
    requires txs == JournalOf(Recorded(stack, q.address)) && rws == JournalOf(Rewarded(stack, q.address))
    ensures Net(result) == WorthUpTo(stack, q.address)(start + count) - WorthUpTo(stack, q.address)(start)
  {
    Walks(q, stack);
    result := ListWindow(q, txs, rws, start, count, ItemsAt(q, stack, start, count));
    ListingAtWindow(q, stack, start, count);
  }

  // A block counts one confirmation for itself and one for each block on it.
  lemma ConfirmationsCount(q: Query, n: nat)
    requires n <= q.head && q.head + 1 < WORD
    ensures q.Confirmations(n) == q.head - n + 1
  {}
}
