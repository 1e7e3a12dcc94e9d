/**
 The client that follows a node's action log: accounts, their journals of transactions and
 rewards, and the blocks.  Its state is always the image of the actions in force, so undoing
 an action gives the state before it and none of the checks on the index ever fails.
 */
module Commander {
  import opened Basics
  import opened ActionLogs
  import opened Journals

  // ----- Reading a logged transaction -----

  datatype Info = Info(from: Address, to: Address, amount: Amount, fee: Amount)

  // None where the code throws: it does not know this kind of action.
  function InfoOf(tx: TransactionLog): Option<Info> {
    match tx.action
    case Transfer(from, to, amount) => Some(Info(from, to, amount, tx.fee))
    case SponsorUnit(sponsor, _, _, _, amount) => Some(Info(sponsor, "", amount, tx.fee))
    case Owned(owner) => Some(Info(owner, "", 0, tx.fee))
    case AuthorizationUpdate(_) => None
  }

  predicate Involved(info: Info, authority: Address, a: Address) {
    a != "" && (a == info.from || a == authority || a == info.to)
  }

  // ----- What the actions in force mean for an account -----

  function BlockCount(stack: seq<Action>): nat {
    if stack == [] then 0 else BlockCount(stack[..|stack| - 1]) + if stack[|stack| - 1].Block? then 1 else 0
  }

  // No block lies above a transaction of the pool.
  ghost predicate BlocksFirst(stack: seq<Action>) {
    forall i, j :: 0 <= i < j < |stack| && stack[i].Transaction? ==> stack[j].Transaction?
  }

  function OneEntry(n: nat, tx: TransactionLog, authority: Address, a: Address): seq<(nat, TransactionLog)> {
    if InfoOf(tx).Some? && Involved(InfoOf(tx).value, authority, a) then [(n, tx)] else []
  }

  function TxEntries(n: nat, txs: seq<TransactionLog>, authority: Address, a: Address): seq<(nat, TransactionLog)> {
    if txs == [] then []
    else TxEntries(n, txs[..|txs| - 1], authority, a) + OneEntry(n, txs[|txs| - 1], authority, a)
  }

  function RewardEntries(n: nat, rewards: seq<RewardLog>, a: Address): seq<(nat, RewardLog)> {
    if rewards == [] then []
    else RewardEntries(n, rewards[..|rewards| - 1], a) + if rewards[|rewards| - 1].to == a then [(n, rewards[|rewards| - 1])] else []
  }

  // The transactions an account takes part in, with the number of their block; those of the
  // pool count for the block to come.
  function Recorded(stack: seq<Action>, a: Address): seq<(nat, TransactionLog)> {
    if stack == [] then []
    else
      var below := stack[..|stack| - 1];
      match stack[|stack| - 1]
      case Block(b) => Recorded(below, a) + TxEntries(BlockCount(below), b.transactions, b.authority, a)
      case Transaction(tx) => Recorded(below, a) + OneEntry(BlockCount(below), tx, "", a)
  }

  function Rewarded(stack: seq<Action>, a: Address): seq<(nat, RewardLog)> {
    if stack == [] then []
    else
      var below := stack[..|stack| - 1];
      match stack[|stack| - 1]
      case Block(b) => Rewarded(below, a) + RewardEntries(BlockCount(below), b.rewards, a)
      case Transaction(_) => Rewarded(below, a)
  }

  function Delta(info: Info, authority: Address, a: Address): int {
    if a == "" then 0
    else
      (if a == info.to then info.amount else 0) + (if a == authority then info.fee else 0)
      - (if a == info.from then info.amount + info.fee else 0)
  }

  function Shift(from: Address, to: Address, amount: Amount, a: Address): int {
    if a == "" then 0 else (if a == to then amount else 0) - (if a == from then amount else 0)
  }

  function TxDelta(tx: TransactionLog, authority: Address, a: Address): int {
    if InfoOf(tx).Some? then Delta(InfoOf(tx).value, authority, a) else 0
  }

  function TxDeltas(txs: seq<TransactionLog>, authority: Address, a: Address): int {
    if txs == [] then 0 else TxDeltas(txs[..|txs| - 1], authority, a) + TxDelta(txs[|txs| - 1], authority, a)
  }

  function RewardDeltas(rewards: seq<RewardLog>, a: Address): nat {
    if rewards == [] then 0
    else RewardDeltas(rewards[..|rewards| - 1], a) + if rewards[|rewards| - 1].to == a then rewards[|rewards| - 1].amount else 0
  }

  function Balance(stack: seq<Action>, a: Address): int {
    if stack == [] then 0
    else
      Balance(stack[..|stack| - 1], a) +
      match stack[|stack| - 1]
      case Block(b) => TxDeltas(b.transactions, b.authority, a) + RewardDeltas(b.rewards, a)
      case Transaction(tx) => TxDelta(tx, "", a)
  }

  // The payer can afford the amount, and then the fee, before anything comes back to him.
  predicate Affords(balance: int, info: Info, a: Address) {
    a != "" && a == info.from ==>
      balance >= info.amount && balance - info.amount + (if a == info.to then info.amount else 0) >= info.fee
  }

  ghost predicate AllAffordUpTo(accounts: set<Address>, base: Address -> int, txs: seq<TransactionLog>, authority: Address, n: nat)
    requires n <= |txs|
  {
    forall i :: 0 <= i < n ==> AffordAt(accounts, base, txs, authority, i)
  }

  // The transaction at `i` is understood, and whoever pays can afford it at its turn.
  ghost predicate AffordAt(accounts: set<Address>, base: Address -> int, txs: seq<TransactionLog>, authority: Address, i: nat)
    requires i < |txs|
  {
    InfoOf(txs[i]).Some? &&
    forall a <- accounts :: Affords(base(a) + TxDeltas(txs[..i], authority, a), InfoOf(txs[i]).value, a)
  }

  ghost predicate AllAfford(accounts: set<Address>, base: Address -> int, txs: seq<TransactionLog>, authority: Address) {
    AllAffordUpTo(accounts, base, txs, authority, |txs|)
  }

  ghost function Worth(stack: seq<Action>): Address -> int { a => Balance(stack, a) }

  // Every action could be carried out on the balances the actions before it left.
  ghost predicate Payable(accounts: set<Address>, stack: seq<Action>) {
    if stack == [] then true
    else
      var below := stack[..|stack| - 1];
      Payable(accounts, below) &&
      match stack[|stack| - 1]
      case Block(b) => AllAfford(accounts, Worth(below), b.transactions, b.authority)
      case Transaction(tx) => AllAfford(accounts, Worth(below), [tx], "")
  }

  // ----- The entries are in the order of the blocks -----

  lemma InOrderConcat<T>(entries: seq<(nat, T)>, block: nat, more: seq<(nat, T)>)
    requires InOrder(entries, block) && forall i :: 0 <= i < |more| ==> more[i].0 == block
    ensures InOrder(entries + more, block)
    decreases |more|
  {
    if more == [] {
      assert entries + more == entries;
    } else {
      OrderGrows(entries, block, more[0].1);
      assert entries + [(block, more[0].1)] + more[1..] == entries + more;
      InOrderConcat(entries + [(block, more[0].1)], block, more[1..]);
    }
  }

  lemma {:induction false} TxEntriesBlock(n: nat, txs: seq<TransactionLog>, authority: Address, a: Address)
    ensures forall e <- TxEntries(n, txs, authority, a) :: e.0 == n
  {
    if txs == [] {
    } else {
      TxEntriesBlock(n, txs[..|txs| - 1], authority, a);
    }
  }

  lemma {:induction false} RewardEntriesBlock(n: nat, rewards: seq<RewardLog>, a: Address)
    ensures forall e <- RewardEntries(n, rewards, a) :: e.0 == n
  {
    if rewards == [] {
    } else {
      RewardEntriesBlock(n, rewards[..|rewards| - 1], a);
    }
  }

  lemma {:induction false} RecordedInOrder(stack: seq<Action>, a: Address)
    ensures InOrder(Recorded(stack, a), BlockCount(stack))
  {
    if stack == [] {
    } else {
      var below := stack[..|stack| - 1];
      RecordedInOrder(below, a);
      match stack[|stack| - 1]
      case Block(b) =>
        TxEntriesBlock(BlockCount(below), b.transactions, b.authority, a);
        InOrderConcat(Recorded(below, a), BlockCount(below), TxEntries(BlockCount(below), b.transactions, b.authority, a));
      case Transaction(tx) =>
        InOrderConcat(Recorded(below, a), BlockCount(below), OneEntry(BlockCount(below), tx, "", a));
    }
  }

  lemma {:induction false} RewardedInOrder(stack: seq<Action>, a: Address)
    ensures InOrder(Rewarded(stack, a), BlockCount(stack))
  {
    if stack == [] {
    } else {
      var below := stack[..|stack| - 1];
      RewardedInOrder(below, a);
      if stack[|stack| - 1].Block? {
        var rewards := stack[|stack| - 1].block.rewards;
        RewardEntriesBlock(BlockCount(below), rewards, a);
        InOrderConcat(Rewarded(below, a), BlockCount(below), RewardEntries(BlockCount(below), rewards, a));
      }
    }
  }

  lemma TxEntriesMore(n: nat, txs: seq<TransactionLog>, i: nat, authority: Address, a: Address)
    requires i < |txs|
    ensures TxEntries(n, txs[..i + 1], authority, a) == TxEntries(n, txs[..i], authority, a) + OneEntry(n, txs[i], authority, a)
    ensures TxDeltas(txs[..i + 1], authority, a) == TxDeltas(txs[..i], authority, a) + TxDelta(txs[i], authority, a)
  {
    assert txs[..i + 1][..i] == txs[..i];
  }

  function OneReward(n: nat, reward: RewardLog, a: Address): seq<(nat, RewardLog)> {
    if reward.to == a then [(n, reward)] else []
  }

  lemma RewardEntriesMore(n: nat, rewards: seq<RewardLog>, i: nat, a: Address)
    requires i < |rewards|
    ensures RewardEntries(n, rewards[..i + 1], a) == RewardEntries(n, rewards[..i], a) + OneReward(n, rewards[i], a)
    ensures RewardDeltas(rewards[..i + 1], a) == RewardDeltas(rewards[..i], a) + if rewards[i].to == a then rewards[i].amount else 0
  {
    assert rewards[..i + 1][..i] == rewards[..i];
  }

  ghost function With(e: Address -> seq<(nat, TransactionLog)>, n: nat, txs: seq<TransactionLog>, authority: Address)
    : Address -> seq<(nat, TransactionLog)>
  {
    a => e(a) + TxEntries(n, txs, authority, a)
  }

  ghost function Plus(base: Address -> int, txs: seq<TransactionLog>, authority: Address): Address -> int {
    a => base(a) + TxDeltas(txs, authority, a)
  }

  ghost function WithRewards(e: Address -> seq<(nat, RewardLog)>, n: nat, list: seq<RewardLog>): Address -> seq<(nat, RewardLog)> {
    a => e(a) + RewardEntries(n, list, a)
  }

  ghost function PlusRewards(base: Address -> int, list: seq<RewardLog>): Address -> int {
    a => base(a) + RewardDeltas(list, a)
  }

  ghost function Txs(stack: seq<Action>): Address -> seq<(nat, TransactionLog)> { a => Recorded(stack, a) }

  ghost function Rws(stack: seq<Action>): Address -> seq<(nat, RewardLog)> { a => Rewarded(stack, a) }

  datatype BlockInfo = BlockInfo(authority: Address, hash: Hash, number: nat, time: int)

  function InfoOfBlock(b: BlockLog): BlockInfo {
    BlockInfo(b.authority, b.hash, b.number, b.time)
  }

  function Infos(stack: seq<Action>): seq<BlockInfo> {
    if stack == [] then []
    else
      Infos(stack[..|stack| - 1]) +
      if stack[|stack| - 1].Block? then [InfoOfBlock(stack[|stack| - 1].block)] else []
  }

  // ----- One action more -----

  lemma BlockOnTop(stack: seq<Action>, b: BlockLog)
    ensures var above, n := stack + [Block(b)], BlockCount(stack);
            && BlockCount(above) == n + 1 && Infos(above) == Infos(stack) + [InfoOfBlock(b)]
            && (forall a :: Txs(above)(a) == With(Txs(stack), n, b.transactions, b.authority)(a))
            && (forall a :: Rws(above)(a) == WithRewards(Rws(stack), n, b.rewards)(a))
            && forall a :: Worth(above)(a) == PlusRewards(Plus(Worth(stack), b.transactions, b.authority), b.rewards)(a)
  {
    assert (stack + [Block(b)])[..|stack|] == stack;
  }

  lemma CountOnTop(stack: seq<Action>, b: BlockLog)
    ensures BlockCount(stack + [Block(b)]) == BlockCount(stack) + 1 && Infos(stack + [Block(b)]) == Infos(stack) + [InfoOfBlock(b)]
  {
    assert (stack + [Block(b)])[..|stack|] == stack;
  }

  lemma SameCount(stack: seq<Action>, tx: TransactionLog)
    ensures BlockCount(stack + [Transaction(tx)]) == BlockCount(stack) && Infos(stack + [Transaction(tx)]) == Infos(stack)
  {
    assert (stack + [Transaction(tx)])[..|stack|] == stack;
  }

  lemma BlockPayable(accounts: set<Address>, stack: seq<Action>, b: BlockLog)
    ensures Payable(accounts, stack + [Block(b)]) <==>
            Payable(accounts, stack) && AllAfford(accounts, Worth(stack), b.transactions, b.authority)
  {
    assert (stack + [Block(b)])[..|stack|] == stack;
  }

  lemma TransactionOnTop(stack: seq<Action>, tx: TransactionLog)
    ensures var above, n := stack + [Transaction(tx)], BlockCount(stack);
            && BlockCount(above) == n && Infos(above) == Infos(stack)
            && (forall a :: Txs(above)(a) == Txs(stack)(a) + OneEntry(n, tx, "", a))
            && (forall a :: Rws(above)(a) == Rws(stack)(a))
            && forall a :: Worth(above)(a) == Worth(stack)(a) + TxDelta(tx, "", a)
  {
    assert (stack + [Transaction(tx)])[..|stack|] == stack;
  }

  lemma TransactionPayable(accounts: set<Address>, stack: seq<Action>, tx: TransactionLog)
    ensures Payable(accounts, stack + [Transaction(tx)]) <==>
            && Payable(accounts, stack) && InfoOf(tx).Some?
            && forall a <- accounts :: Affords(Worth(stack)(a), InfoOf(tx).value, a)
  {
    assert (stack + [Transaction(tx)])[..|stack|] == stack;
    assert AllAfford(accounts, Worth(stack), [tx], "") <==> AffordAt(accounts, Worth(stack), [tx], "", 0);
  }

  // ----- The client -----

  function JournalAt<T>(m: map<Address, Journal<T>>, a: Address): Journal<T> {
    if a in m then m[a] else Journal([], map[])
  }

  datatype Change = Increase | Decrease

  function Signed(account: Address, amount: Amount, change: Change, a: Address): int {
    if a != account then 0 else if change.Increase? then amount else 0 - amount
  }

  class Client {
    const accounts: set<Address>
    var balances: map<Address, Amount>
    var transactions: map<Address, Journal<TransactionLog>>
    var rewards: map<Address, Journal<RewardLog>>
    var blocks: seq<BlockInfo>
    var head: nat
    var start: nat

    method UpdateBalance(account: Address, amount: Amount, change: Change) returns (ok: bool)
      modifies this`balances
      ensures ok <==> (account in accounts && change.Decrease? ==> Lookup(old(balances), account) >= amount)
      ensures ok ==> forall a <- accounts :: Lookup(balances, a) == Lookup(old(balances), a) + Signed(account, amount, change, a)
    {
      if account !in accounts { return true; }
      if account !in balances { balances := balances[account := 0]; }
      var balance := balances[account];
      if change.Decrease? {
        if balance < amount { return false; }
        balance := balance - amount;
      } else {
        balance := balance + amount;
      }
      balances := balances[account := balance];
      ok := true;
    }

    // One payment; an empty address is nobody's.
    method Pay(from: Address, to: Address, amount: Amount) returns (ok: bool)
      modifies this`balances
      ensures ok <==> (from != "" && from in accounts ==> Lookup(old(balances), from) >= amount)
      ensures ok ==> forall a <- accounts :: Lookup(balances, a) == Lookup(old(balances), a) + Shift(from, to, amount, a)
    {
      if amount == 0 { return true; }
      if from != "" {
        ok := UpdateBalance(from, amount, Decrease);
        if !ok { return; }
      }
      if to != "" { ok := UpdateBalance(to, amount, Increase); }
      ok := true;
    }

    // The payment taken back, again first at `from`.
    method Unpay(from: Address, to: Address, amount: Amount) returns (ok: bool)
      modifies this`balances
      ensures ok <==> (to != "" && to in accounts && from != to ==> Lookup(old(balances), to) >= amount)
      ensures ok ==> forall a <- accounts :: Lookup(balances, a) == Lookup(old(balances), a) - Shift(from, to, amount, a)
    {
      if amount == 0 { return true; }
      if from != "" { ok := UpdateBalance(from, amount, Increase); }
      if to != "" {
        ok := UpdateBalance(to, amount, Decrease);
        if !ok { return; }
      }
      ok := true;
    }

    // Carries out a transaction on the balances: the amount, then the fee.
    method ApplyBalances(info: Info, authority: Address) returns (ok: bool)
      modifies this`balances
      ensures ok <==> (info.from in accounts ==> Affords(Lookup(old(balances), info.from), info, info.from))
      ensures ok ==> forall a <- accounts :: Lookup(balances, a) == Lookup(old(balances), a) + Delta(info, authority, a)
    {
      ok := Pay(info.from, info.to, info.amount);
      if !ok { return; }
      ok := Pay(info.from, authority, info.fee);
    }

    // Takes a transaction that could be afforded back; no balance goes below zero.
    method RevertBalances(info: Info, authority: Address, ghost before: Address -> int) returns (ok: bool)
      requires forall a <- accounts :: before(a) >= 0 && Lookup(balances, a) == before(a) + Delta(info, authority, a)
      requires info.from in accounts ==> Affords(before(info.from), info, info.from)
      modifies this`balances
      ensures ok && forall a <- accounts :: Lookup(balances, a) == before(a)
    {
      ok := Unpay(info.from, info.to, info.amount);
      if !ok { return; }
      ok := Unpay(info.from, authority, info.fee);
    }

    // ----- Journals -----

    ghost predicate TxJournals(e: Address -> seq<(nat, TransactionLog)>)
      reads this`transactions
    {
      forall a <- accounts :: JournalAt(transactions, a) == JournalOf(e(a))
    }

    ghost predicate RewardJournals(e: Address -> seq<(nat, RewardLog)>)
      reads this`rewards
    {
      forall a <- accounts :: JournalAt(rewards, a) == JournalOf(e(a))
    }

    method ApplyTransaction(block: nat, account: Address, tx: TransactionLog, ghost e: Address -> seq<(nat, TransactionLog)>)
      returns (ok: bool)
      requires account in accounts ==> JournalAt(transactions, account) == JournalOf(e(account)) && InOrder(e(account), block)
      modifies this`transactions
      ensures ok && forall a <- accounts :: JournalAt(transactions, a) ==
                       if a == account then JournalOf(e(a) + [(block, tx)]) else old(JournalAt(transactions, a))
    {
      if account !in accounts { return true; }
      var j;
      ok, j := Push(JournalAt(transactions, account), block, tx, e(account));
      transactions := transactions[account := j];
    }

    method RevertTransaction(block: nat, account: Address, ghost tx: TransactionLog, ghost e: Address -> seq<(nat, TransactionLog)>)
      returns (ok: bool)
      requires account in accounts ==>
                 JournalAt(transactions, account) == JournalOf(e(account) + [(block, tx)]) && InOrder(e(account), block)
      modifies this`transactions
      ensures ok && forall a <- accounts :: JournalAt(transactions, a) ==
                       if a == account then JournalOf(e(a)) else old(JournalAt(transactions, a))
    {
      if account !in accounts { return true; }
      var j;
      ok, j := Pop(JournalAt(transactions, account), block, e(account), tx);
      transactions := transactions[account := j];
    }

    // Every account taking part gets the transaction once.
    method ApplyInvolved(block: nat, tx: TransactionLog, info: Info, authority: Address, ghost e: Address -> seq<(nat, TransactionLog)>)
      returns (ok: bool)
      requires TxJournals(e) && forall a <- accounts :: InOrder(e(a), block)
      modifies this`transactions
      ensures ok && forall a <- accounts :: JournalAt(transactions, a) ==
                       if Involved(info, authority, a) then JournalOf(e(a) + [(block, tx)]) else JournalOf(e(a))
    {
      ok := true;
      if info.from != "" { ok := ApplyTransaction(block, info.from, tx, e); }
      if ok && authority != "" && authority != info.from { ok := ApplyTransaction(block, authority, tx, e); }
      if ok && info.to != "" && info.to != info.from && info.to != authority { ok := ApplyTransaction(block, info.to, tx, e); }
    }

    method ApplyTransactions(block: nat, tx: TransactionLog, authority: Address, ghost e: Address -> seq<(nat, TransactionLog)>)
      returns (ok: bool)
      requires TxJournals(e) && forall a <- accounts :: InOrder(e(a), block)
      modifies this`transactions
      ensures ok <==> InfoOf(tx).Some?
      ensures ok ==> TxJournals(a => e(a) + OneEntry(block, tx, authority, a))
    {
      var info := InfoOf(tx);
      if info.None? { return false; }
      ok := ApplyInvolved(block, tx, info.value, authority, e);
      forall a | a in accounts
        ensures JournalAt(transactions, a) == JournalOf(e(a) + OneEntry(block, tx, authority, a))
      {
        assert e(a) + [] == e(a);
      }
    }

    method RevertTransactions(block: nat, tx: TransactionLog, authority: Address, ghost e: Address -> seq<(nat, TransactionLog)>)
      returns (ok: bool)
      requires TxJournals(a => e(a) + OneEntry(block, tx, authority, a)) && forall a <- accounts :: InOrder(e(a), block)
      modifies this`transactions
      ensures ok <==> InfoOf(tx).Some?
      ensures ok ==> TxJournals(e)
    {
      var i := InfoOf(tx);
      if i.None? { return false; }
      var info := i.value;
      ok := true;
      assert forall a :: !Involved(info, authority, a) ==> e(a) + OneEntry(block, tx, authority, a) == e(a);
      if info.from != "" { ok := RevertTransaction(block, info.from, tx, e); }
      if ok && authority != "" && authority != info.from { ok := RevertTransaction(block, authority, tx, e); }
      if ok && info.to != "" && info.to != info.from && info.to != authority { ok := RevertTransaction(block, info.to, tx, e); }
    }

    method ApplyReward(block: nat, reward: RewardLog, ghost e: Address -> seq<(nat, RewardLog)>) returns (ok: bool)
      requires RewardJournals(e) && forall a <- accounts :: InOrder(e(a), block)
      modifies this`rewards
      ensures ok && RewardJournals(a => e(a) + OneReward(block, reward, a))
    {
      ok := true;
      assert forall a :: reward.to != a ==> e(a) + [] == e(a);
      if reward.to !in accounts { return; }
      var j;
      ok, j := Push(JournalAt(rewards, reward.to), block, reward, e(reward.to));
      rewards := rewards[reward.to := j];
    }

    method RevertReward(block: nat, reward: RewardLog, ghost e: Address -> seq<(nat, RewardLog)>) returns (ok: bool)
      requires RewardJournals(a => e(a) + OneReward(block, reward, a))
      requires forall a <- accounts :: InOrder(e(a), block)
      modifies this`rewards
      ensures ok && RewardJournals(e)
    {
      ok := true;
      assert forall a :: reward.to != a ==> e(a) + [] == e(a);
      if reward.to !in accounts { return; }
      var j;
      ok, j := Pop(JournalAt(rewards, reward.to), block, e(reward.to), reward);
      rewards := rewards[reward.to := j];
    }

    // ----- One transaction, on balances and journals -----

    ghost predicate Holdings(base: Address -> int)
      reads this`balances
    {
      forall a <- accounts :: Lookup(balances, a) == base(a)
    }

    method ApplyLogged(block: nat, tx: TransactionLog, authority: Address, ghost e: Address -> seq<(nat, TransactionLog)>,
                       ghost base: Address -> int)
      returns (ok: bool)
      requires TxJournals(e) && Holdings(base) && forall a <- accounts :: InOrder(e(a), block)
      modifies this`balances, this`transactions
      ensures ok <==> InfoOf(tx).Some? && forall a <- accounts :: Affords(base(a), InfoOf(tx).value, a)
      ensures ok ==> TxJournals(a => e(a) + OneEntry(block, tx, authority, a)) && Holdings(a => base(a) + TxDelta(tx, authority, a))
    {
      var info := InfoOf(tx);
      if info.None? { return false; }
      ok := ApplyBalances(info.value, authority);
      if !ok { return; }
      ok := ApplyTransactions(block, tx, authority, e);
    }

    method RevertLogged(block: nat, tx: TransactionLog, authority: Address, ghost e: Address -> seq<(nat, TransactionLog)>,
                        ghost base: Address -> int)
      returns (ok: bool)
      requires InfoOf(tx).Some? && forall a <- accounts :: base(a) >= 0 && Affords(base(a), InfoOf(tx).value, a)
      requires TxJournals(a => e(a) + OneEntry(block, tx, authority, a)) && forall a <- accounts :: InOrder(e(a), block)
      requires Holdings(a => base(a) + TxDelta(tx, authority, a))
      modifies this`balances, this`transactions
      ensures ok && TxJournals(e) && Holdings(base)
    {
      var info := InfoOf(tx);
      if info.None? { return false; }
      ok := RevertBalances(info.value, authority, base);
      if !ok { return; }
      ok := RevertTransactions(block, tx, authority, e);
    }

    // ----- All transactions of a block -----

    lemma WithOrdered(e: Address -> seq<(nat, TransactionLog)>, n: nat, txs: seq<TransactionLog>, authority: Address)
      requires forall a <- accounts :: InOrder(e(a), n)
      ensures forall a <- accounts :: InOrder(With(e, n, txs, authority)(a), n)
    {
      forall a | a in accounts ensures InOrder(With(e, n, txs, authority)(a), n) {
        TxEntriesBlock(n, txs, authority, a);
        InOrderConcat(e(a), n, TxEntries(n, txs, authority, a));
      }
    }

    lemma WithMore(e: Address -> seq<(nat, TransactionLog)>, base: Address -> int, n: nat, txs: seq<TransactionLog>, i: nat, authority: Address)
      requires i < |txs|
      ensures TxJournals(a => With(e, n, txs[..i], authority)(a) + OneEntry(n, txs[i], authority, a))
              <==> TxJournals(With(e, n, txs[..i + 1], authority))
      ensures Holdings(a => Plus(base, txs[..i], authority)(a) + TxDelta(txs[i], authority, a))
              <==> Holdings(Plus(base, txs[..i + 1], authority))
    {
      forall a
        ensures With(e, n, txs[..i], authority)(a) + OneEntry(n, txs[i], authority, a) == With(e, n, txs[..i + 1], authority)(a)
        ensures Plus(base, txs[..i], authority)(a) + TxDelta(txs[i], authority, a) == Plus(base, txs[..i + 1], authority)(a)
      {
        TxEntriesMore(n, txs, i, authority, a);
      }
    }

    method ApplyNth(n: nat, txs: seq<TransactionLog>, i: nat, authority: Address,
                    ghost e: Address -> seq<(nat, TransactionLog)>, ghost base: Address -> int)
      returns (ok: bool)
      requires i < |txs| && forall a <- accounts :: InOrder(e(a), n)
      requires TxJournals(With(e, n, txs[..i], authority)) && Holdings(Plus(base, txs[..i], authority))
      modifies this`balances, this`transactions
      ensures ok <==> AffordAt(accounts, base, txs, authority, i)
      ensures ok ==> TxJournals(With(e, n, txs[..i + 1], authority)) && Holdings(Plus(base, txs[..i + 1], authority))
    {
      WithOrdered(e, n, txs[..i], authority);
      ok := ApplyLogged(n, txs[i], authority, With(e, n, txs[..i], authority), Plus(base, txs[..i], authority));
      WithMore(e, base, n, txs, i, authority);
    }

    method ApplyBlockTransactions(n: nat, txs: seq<TransactionLog>, authority: Address,
                                  ghost e: Address -> seq<(nat, TransactionLog)>, ghost base: Address -> int)
      returns (ok: bool)
      requires TxJournals(e) && Holdings(base) && forall a <- accounts :: InOrder(e(a), n)
      modifies this`balances, this`transactions
      ensures ok <==> AllAfford(accounts, base, txs, authority)
      ensures ok ==> TxJournals(With(e, n, txs, authority)) && Holdings(Plus(base, txs, authority))
    {
      assert forall a :: e(a) + [] == e(a);
      for i := 0 to |txs|
        invariant TxJournals(With(e, n, txs[..i], authority)) && Holdings(Plus(base, txs[..i], authority))
        invariant AllAffordUpTo(accounts, base, txs, authority, i)
      {
        ok := ApplyNth(n, txs, i, authority, e, base);
        if !ok { return; }
      }
      assert txs[..|txs|] == txs;
      ok := true;
    }

    // From the last to the first; every balance between two transactions was not negative.
    method RevertBlockTransactions(n: nat, txs: seq<TransactionLog>, authority: Address,
                                   ghost e: Address -> seq<(nat, TransactionLog)>, ghost base: Address -> int, ghost rest: Address -> nat)
      returns (ok: bool)
      requires AllAfford(accounts, base, txs, authority) && forall a <- accounts :: InOrder(e(a), n)
      requires forall a <- accounts :: base(a) >= 0
      requires TxJournals(With(e, n, txs, authority)) && Holdings(Plus(a => base(a) + rest(a), txs, authority))
      modifies this`balances, this`transactions
      ensures ok && TxJournals(e) && Holdings(a => base(a) + rest(a))
    {
      ghost var more := a => base(a) + rest(a);
      assert txs[..|txs|] == txs;
      for i := |txs| downto 0
        invariant TxJournals(With(e, n, txs[..i], authority)) && Holdings(Plus(more, txs[..i], authority))
      {
        WithOrdered(e, n, txs[..i], authority);
        WithMore(e, more, n, txs, i, authority);
        assert AffordAt(accounts, base, txs, authority, i);
        StaysPositive(accounts, base, txs, authority, i);
        ok := RevertLogged(n, txs[i], authority, With(e, n, txs[..i], authority), Plus(more, txs[..i], authority));
      }
      assert forall a :: e(a) + [] == e(a);
      ok := true;
    }

    // ----- All rewards of a block -----

    lemma RewardsOrdered(e: Address -> seq<(nat, RewardLog)>, n: nat, list: seq<RewardLog>)
      requires forall a <- accounts :: InOrder(e(a), n)
      ensures forall a <- accounts :: InOrder(WithRewards(e, n, list)(a), n)
    {
      forall a | a in accounts ensures InOrder(WithRewards(e, n, list)(a), n) {
        RewardEntriesBlock(n, list, a);
        InOrderConcat(e(a), n, RewardEntries(n, list, a));
      }
    }

    lemma RewardsMore(e: Address -> seq<(nat, RewardLog)>, base: Address -> int, n: nat, list: seq<RewardLog>, i: nat)
      requires i < |list|
      ensures RewardJournals(a => WithRewards(e, n, list[..i])(a) + OneReward(n, list[i], a))
              <==> RewardJournals(WithRewards(e, n, list[..i + 1]))
      ensures forall a :: PlusRewards(base, list[..i + 1])(a) ==
                PlusRewards(base, list[..i])(a) + Signed(list[i].to, list[i].amount, Increase, a)
    {
      forall a
        ensures WithRewards(e, n, list[..i])(a) + OneReward(n, list[i], a) == WithRewards(e, n, list[..i + 1])(a)
        ensures PlusRewards(base, list[..i + 1])(a) ==
                PlusRewards(base, list[..i])(a) + Signed(list[i].to, list[i].amount, Increase, a)
      {
        RewardEntriesMore(n, list, i, a);
      }
    }

    method ApplyNthReward(n: nat, list: seq<RewardLog>, i: nat, ghost e: Address -> seq<(nat, RewardLog)>, ghost base: Address -> int)
      returns (ok: bool)
      requires i < |list| && forall a <- accounts :: InOrder(e(a), n)
      requires RewardJournals(WithRewards(e, n, list[..i])) && Holdings(PlusRewards(base, list[..i]))
      modifies this`balances, this`rewards
      ensures ok && RewardJournals(WithRewards(e, n, list[..i + 1])) && Holdings(PlusRewards(base, list[..i + 1]))
    {
      RewardsOrdered(e, n, list[..i]);
      RewardsMore(e, base, n, list, i);
      ok := UpdateBalance(list[i].to, list[i].amount, Increase);
      assert Holdings(PlusRewards(base, list[..i + 1]));
      ok := ApplyReward(n, list[i], WithRewards(e, n, list[..i]));
      RewardsMore(e, base, n, list, i);
    }

    method RevertNthReward(n: nat, list: seq<RewardLog>, i: nat, ghost e: Address -> seq<(nat, RewardLog)>, ghost base: Address -> int)
      returns (ok: bool)
      requires i < |list| && forall a <- accounts :: InOrder(e(a), n) && base(a) >= 0
      requires RewardJournals(WithRewards(e, n, list[..i + 1])) && Holdings(PlusRewards(base, list[..i + 1]))
      modifies this`balances, this`rewards
      ensures ok && RewardJournals(WithRewards(e, n, list[..i])) && Holdings(PlusRewards(base, list[..i]))
    {
      RewardsOrdered(e, n, list[..i]);
      RewardsMore(e, base, n, list, i);
      ok := UpdateBalance(list[i].to, list[i].amount, Decrease);
      assert Holdings(PlusRewards(base, list[..i]));
      RewardsMore(e, base, n, list, i);
      ok := RevertReward(n, list[i], WithRewards(e, n, list[..i]));
    }

    method ApplyBlockRewards(n: nat, list: seq<RewardLog>, ghost e: Address -> seq<(nat, RewardLog)>, ghost base: Address -> int)
      returns (ok: bool)
      requires RewardJournals(e) && Holdings(base) && forall a <- accounts :: InOrder(e(a), n)
      modifies this`balances, this`rewards
      ensures ok && RewardJournals(WithRewards(e, n, list)) && Holdings(PlusRewards(base, list))
    {
      assert forall a :: e(a) + [] == e(a);
      for i := 0 to |list|
        invariant RewardJournals(WithRewards(e, n, list[..i])) && Holdings(PlusRewards(base, list[..i]))
      {
        ok := ApplyNthReward(n, list, i, e, base);
      }
      assert list[..|list|] == list;
      ok := true;
    }

    method RevertBlockRewards(n: nat, list: seq<RewardLog>, ghost e: Address -> seq<(nat, RewardLog)>, ghost base: Address -> int)
      returns (ok: bool)
      requires forall a <- accounts :: InOrder(e(a), n) && base(a) >= 0
      requires RewardJournals(WithRewards(e, n, list)) && Holdings(PlusRewards(base, list))
      modifies this`balances, this`rewards
      ensures ok && RewardJournals(e) && Holdings(base)
    {
      assert list[..|list|] == list;
      for i := |list| downto 0
        invariant RewardJournals(WithRewards(e, n, list[..i])) && Holdings(PlusRewards(base, list[..i]))
      {
        ok := RevertNthReward(n, list, i, e, base);
      }
      assert forall a :: e(a) + [] == e(a);
      ok := true;
    }

    // ----- One action -----

    ghost predicate Contents(stack: seq<Action>)
      reads this`transactions, this`rewards, this`balances
    {
      TxJournals(Txs(stack)) && RewardJournals(Rws(stack)) && Holdings(Worth(stack)) && Payable(accounts, stack)
    }

    // The state is the image of the actions in force.
    ghost predicate Image(stack: seq<Action>)
      reads this
    {
      && BlockCount(stack) < WORD && head == (if start == 0 then 0 else HeadOf(BlockCount(stack)))
      && (start == 0 ==> stack == [])
      && blocks == Infos(stack) && Contents(stack)
    }

    constructor (accounts: set<Address>)
      ensures Image([]) && start == 0 && this.accounts == accounts
    {
      this.accounts := accounts;
      balances, transactions, rewards, blocks, head, start := map[], map[], map[], [], 0, 0;
    }

    lemma Ordered(stack: seq<Action>)
      ensures forall a <- accounts :: InOrder(Txs(stack)(a), BlockCount(stack)) && InOrder(Rws(stack)(a), BlockCount(stack))
    {
      forall a | a in accounts
        ensures InOrder(Txs(stack)(a), BlockCount(stack)) && InOrder(Rws(stack)(a), BlockCount(stack))
      {
        RecordedInOrder(stack, a);
        RewardedInOrder(stack, a);
      }
    }

    method ApplyBlockContents(b: BlockLog, index: nat, ghost stack: seq<Action>) returns (ok: bool)
      requires index == BlockCount(stack) && Contents(stack)
      modifies this`balances, this`transactions, this`rewards
      ensures ok <==> Payable(accounts, stack + [Block(b)])
      ensures ok ==> Contents(stack + [Block(b)])
    {
      BlockOnTop(stack, b);
      BlockPayable(accounts, stack, b);
      Ordered(stack);
      ok := ApplyBlockTransactions(index, b.transactions, b.authority, Txs(stack), Worth(stack));
      if !ok { return; }
      ok := ApplyBlockRewards(index, b.rewards, Rws(stack), Plus(Worth(stack), b.transactions, b.authority));
    }

    method PushBlock(b: BlockLog, first: bool, ghost n: nat)
      requires n + 1 < WORD && head == (if first then 0 else HeadOf(n)) && (first ==> n == 0)
      modifies this`blocks, this`head
      ensures head == n && blocks == old(blocks) + [InfoOfBlock(b)]
    {
      HeadMoves(n);
      if !first { head := (head + 1) % WORD; }
      blocks := blocks + [InfoOfBlock(b)];
    }

    // A block on top of the actions in force; `first` says it is the first action ever seen.
    method ApplyBlock(b: BlockLog, first: bool, ghost stack: seq<Action>) returns (ok: bool)
      requires start > 0 && BlockCount(stack) + 1 < WORD && blocks == Infos(stack) && Contents(stack)
      requires head == if first then 0 else HeadOf(BlockCount(stack))
      requires first ==> stack == []
      modifies this`balances, this`transactions, this`rewards, this`blocks, this`head
      ensures ok <==> Payable(accounts, stack + [Block(b)])
      ensures ok ==> Image(stack + [Block(b)])
    {
      PushBlock(b, first, BlockCount(stack));
      ok := ApplyBlockContents(b, head, stack);
      CountOnTop(stack, b);
      HeadMoves(BlockCount(stack));
    }

    method RevertBlockContents(b: BlockLog, index: nat, ghost stack: seq<Action>) returns (ok: bool)
      requires index == BlockCount(stack) && Contents(stack + [Block(b)])
      modifies this`balances, this`transactions, this`rewards
      ensures ok && Contents(stack)
    {
      BlockOnTop(stack, b);
      BlockPayable(accounts, stack, b);
      Ordered(stack);
      PayablePositive(accounts, stack);
      ghost var rest := a => RewardDeltas(b.rewards, a);
      ghost var base := Worth(stack);
      ok := RevertBlockTransactions(index, b.transactions, b.authority, Txs(stack), base, rest);
      if !ok { return; }
      ok := RevertBlockRewards(index, b.rewards, Rws(stack), base);
    }

    method RevertBlock(b: BlockLog, ghost stack: seq<Action>) returns (ok: bool)
      requires start > 0 && Image(stack + [Block(b)])
      modifies this`balances, this`transactions, this`rewards, this`blocks, this`head
      ensures ok && Image(stack)
    {
      BlockOnTop(stack, b);
      HeadMoves(BlockCount(stack));
      var index := head;
      head := (head + WORD - 1) % WORD;
      ok := RevertBlockContents(b, index, stack);
      if !ok { return; }
      blocks := blocks[..|blocks| - 1];
    }

    method ApplyPoolContents(tx: TransactionLog, n: nat, ghost stack: seq<Action>) returns (ok: bool)
      requires n == BlockCount(stack) && Contents(stack)
      modifies this`balances, this`transactions
      ensures ok <==> Payable(accounts, stack + [Transaction(tx)])
      ensures ok ==> Contents(stack + [Transaction(tx)])
    {
      TransactionOnTop(stack, tx);
      TransactionPayable(accounts, stack, tx);
      Ordered(stack);
      ok := ApplyLogged(n, tx, "", Txs(stack), Worth(stack));
    }

    method RevertPoolContents(tx: TransactionLog, n: nat, ghost stack: seq<Action>) returns (ok: bool)
      requires n == BlockCount(stack) && Contents(stack + [Transaction(tx)])
      modifies this`balances, this`transactions
      ensures ok && Contents(stack)
    {
      TransactionOnTop(stack, tx);
      TransactionPayable(accounts, stack, tx);
      Ordered(stack);
      PayablePositive(accounts, stack);
      ok := RevertLogged(n, tx, "", Txs(stack), Worth(stack));
    }

    // A transaction of the pool counts for the block to come.
    method ApplyPool(tx: TransactionLog, ghost stack: seq<Action>) returns (ok: bool)
      requires start > 0 && Image(stack)
      modifies this`balances, this`transactions
      ensures ok <==> Payable(accounts, stack + [Transaction(tx)])
      ensures ok ==> Image(stack + [Transaction(tx)])
    {
      HeadMoves(BlockCount(stack));
      SameCount(stack, tx);
      ok := ApplyPoolContents(tx, (head + 1) % WORD, stack);
    }

    method RevertPool(tx: TransactionLog, ghost stack: seq<Action>) returns (ok: bool)
      requires start > 0 && Image(stack + [Transaction(tx)])
      modifies this`balances, this`transactions
      ensures ok && Image(stack)
    {
      HeadMoves(BlockCount(stack));
      SameCount(stack, tx);
      ok := RevertPoolContents(tx, (head + 1) % WORD, stack);
    }
  }

  // The index of the newest of `n` blocks, as an unsigned word.
  function HeadOf(n: nat): nat {
    if n == 0 then WORD - 1 else n - 1
  }

  lemma HeadMoves(n: nat)
    requires n < WORD
    ensures (HeadOf(n) + 1) % WORD == n
    ensures n + 1 < WORD ==> HeadOf(n + 1) == n && (HeadOf(n + 1) + WORD - 1) % WORD == HeadOf(n)
  {}

  lemma {:induction false} PayablePositive(accounts: set<Address>, stack: seq<Action>)
    requires Payable(accounts, stack)
    ensures forall a <- accounts :: Worth(stack)(a) >= 0
  {
    if stack == [] {
    } else {
      var below := stack[..|stack| - 1];
      PayablePositive(accounts, below);
      match stack[|stack| - 1]
      case Block(b) =>
        StaysPositive(accounts, Worth(below), b.transactions, b.authority, |b.transactions|);
        assert b.transactions[..|b.transactions|] == b.transactions;
      case Transaction(tx) =>
        StaysPositive(accounts, Worth(below), [tx], "", 1);
        assert [tx][..1] == [tx] && [tx][..0] == [];
        assert forall a :: TxDeltas([tx], "", a) == TxDelta(tx, "", a);
    }
  }

  lemma AffordedStaysPositive(balance: nat, info: Info, authority: Address, a: Address)
    requires Affords(balance, info, a)
    ensures balance + Delta(info, authority, a) >= 0
  {}

  lemma {:induction false} StaysPositive(accounts: set<Address>, base: Address -> int, txs: seq<TransactionLog>, authority: Address, i: nat)
    requires i <= |txs| && AllAffordUpTo(accounts, base, txs, authority, i) && forall a <- accounts :: base(a) >= 0
    ensures forall a <- accounts :: base(a) + TxDeltas(txs[..i], authority, a) >= 0
  {
    if i == 0 {
    } else {
      StaysPositive(accounts, base, txs, authority, i - 1);
      assert AffordAt(accounts, base, txs, authority, i - 1);
      forall a | a in accounts ensures base(a) + TxDeltas(txs[..i], authority, a) >= 0 {
        TxEntriesMore(0, txs, i - 1, authority, a);
        AffordedStaysPositive(base(a) + TxDeltas(txs[..i - 1], authority, a), InfoOf(txs[i - 1]).value, authority, a);
      }
    }
  }

  // ----- What the index says about a block -----

  lemma {:induction false} OnlyBlocks(stack: seq<Action>, a: Address)
    requires forall i :: 0 <= i < |stack| ==> stack[i].Block?
    ensures BlockCount(stack) == |stack| && forall e <- Recorded(stack, a) :: e.0 < |stack|
  {
    if stack == [] {
    } else {
      var below, b := stack[..|stack| - 1], stack[|stack| - 1].block;
      OnlyBlocks(below, a);
      TxEntriesBlock(|below|, b.transactions, b.authority, a);
    }
  }

  lemma {:induction false} RecordedGrows(stack: seq<Action>, m: nat, a: Address)
    requires m <= |stack|
    ensures BlockCount(stack[..m]) <= BlockCount(stack) && Recorded(stack[..m], a) <= Recorded(stack, a)
    ensures forall i :: |Recorded(stack[..m], a)| <= i < |Recorded(stack, a)| ==> Recorded(stack, a)[i].0 >= BlockCount(stack[..m])
    decreases |stack|
  {
    if m < |stack| {
      var below := stack[..|stack| - 1];
      assert below[..m] == stack[..m];
      RecordedGrows(below, m, a);
      if stack[|stack| - 1].Block? {
        var b := stack[|stack| - 1].block;
        TxEntriesBlock(BlockCount(below), b.transactions, b.authority, a);
      }
    } else {
      assert stack[..m] == stack;
    }
  }

  // The entries of a block in the journal of an account, between older and newer ones.
  lemma RecordedAround(stack: seq<Action>, n: nat, a: Address)
    requires BlocksFirst(stack) && n < |stack| && stack[n].Block?
    ensures var b := stack[n].block;
            var older, mine := Recorded(stack[..n], a), TxEntries(n, b.transactions, b.authority, a);
            var all := Recorded(stack, a);
            && older + mine <= all && (forall e <- older :: e.0 < n) && (forall e <- mine :: e.0 == n)
            && forall i :: |older + mine| <= i < |all| ==> all[i].0 > n
  {
    assert forall i :: 0 <= i < n ==> stack[..n][i] == stack[i] && stack[i].Block?;
    OnlyBlocks(stack[..n], a);
    var b := stack[n].block;
    TxEntriesBlock(n, b.transactions, b.authority, a);
    assert stack[..n + 1][..n] == stack[..n];
    RecordedGrows(stack, n + 1, a);
  }

  lemma IntervalOf<T>(older: seq<(nat, T)>, mine: seq<(nat, T)>, newer: seq<(nat, T)>, n: nat)
    requires (forall e <- older :: e.0 < n) && (forall e <- mine :: e.0 == n) && (forall e <- newer :: e.0 > n)
    requires Sorted(Blocks(older + mine + newer))
    ensures var j := JournalOf(older + mine + newer);
            && (n in j.index <==> mine != [])
            && (mine != [] ==> j.index[n] == Interval(|older|, |mine|)
                               && j.log[|older|..|older| + |mine|] == Items(mine))
  {
    var all := older + mine + newer;
    var blocks := Blocks(all);
    IndexPartitions(blocks);
    assert forall k :: 0 <= k < |all| ==> (blocks[k] == n <==> |older| <= k < |older| + |mine|);
    if mine != [] {
      assert blocks[|older|] == n;
      var iv := IndexOf(blocks)[n];
      assert Covers(blocks, iv, n);
      assert blocks[iv.first] == n && blocks[iv.first + iv.count - 1] == n && blocks[|older| + |mine| - 1] == n;
      assert JournalOf(all).log[|older|..|older| + |mine|] == Items(mine);
    }
  }

  // With the blocks before the pool, the interval of a block in an account's journal holds
  // exactly the block's transactions the account takes part in, in their order.
  lemma IntervalIsBlock(stack: seq<Action>, n: nat, a: Address)
    requires BlocksFirst(stack) && n < |stack| && stack[n].Block?
    ensures var b := stack[n].block;
            var mine, j := TxEntries(n, b.transactions, b.authority, a), JournalOf(Recorded(stack, a));
            && (n in j.index <==> mine != [])
            && (mine != [] ==> var iv := j.index[n];
                 iv.first + iv.count <= |j.log| && j.log[iv.first..iv.first + iv.count] == Items(mine))
  {
    RecordedAround(stack, n, a);
    RecordedInOrder(stack, a);
    var b := stack[n].block;
    var older, mine := Recorded(stack[..n], a), TxEntries(n, b.transactions, b.authority, a);
    var all := Recorded(stack, a);
    var newer := all[|older + mine|..];
    assert all == older + mine + newer;
    IntervalOf(older, mine, newer, n);
  }

  // ----- And of its rewards -----

  lemma {:induction false} OnlyBlocksReward(stack: seq<Action>, a: Address)
    requires forall i :: 0 <= i < |stack| ==> stack[i].Block?
    ensures BlockCount(stack) == |stack| && forall e <- Rewarded(stack, a) :: e.0 < |stack|
  {
    if stack == [] {
    } else {
      var below, b := stack[..|stack| - 1], stack[|stack| - 1].block;
      OnlyBlocksReward(below, a);
      RewardEntriesBlock(|below|, b.rewards, a);
    }
  }

  lemma {:induction false} RewardedGrows(stack: seq<Action>, m: nat, a: Address)
    requires m <= |stack|
    ensures BlockCount(stack[..m]) <= BlockCount(stack) && Rewarded(stack[..m], a) <= Rewarded(stack, a)
    ensures forall i :: |Rewarded(stack[..m], a)| <= i < |Rewarded(stack, a)| ==> Rewarded(stack, a)[i].0 >= BlockCount(stack[..m])
    decreases |stack|
  {
    if m == |stack| {
      assert stack[..m] == stack;
    } else {
      var below := stack[..|stack| - 1];
      assert below[..m] == stack[..m];
      RewardedGrows(below, m, a);
      if stack[|stack| - 1].Block? { RewardEntriesBlock(BlockCount(below), stack[|stack| - 1].block.rewards, a); }
    }
  }

  // The rewards of a block in the journal of an account, between older and newer ones.
  lemma RewardedAround(stack: seq<Action>, n: nat, a: Address)
    requires BlocksFirst(stack) && n < |stack| && stack[n].Block?
    ensures var older, mine := Rewarded(stack[..n], a), RewardEntries(n, stack[n].block.rewards, a);
            var all := Rewarded(stack, a);
            && older + mine <= all && (forall e <- older :: e.0 < n) && (forall e <- mine :: e.0 == n)
            && forall i :: |older + mine| <= i < |all| ==> all[i].0 > n
  {
    assert forall i :: 0 <= i < n ==> stack[..n][i] == stack[i] && stack[i].Block?;
    OnlyBlocksReward(stack[..n], a);
    RewardEntriesBlock(n, stack[n].block.rewards, a);
    assert stack[..n + 1][..n] == stack[..n];
    RewardedGrows(stack, n + 1, a);
  }

  // The interval of a block in an account's journal of rewards holds exactly the block's
  // rewards of the account, in their order.
  lemma RewardIntervalIsBlock(stack: seq<Action>, n: nat, a: Address)
    requires BlocksFirst(stack) && n < |stack| && stack[n].Block?
    ensures var mine, j := RewardEntries(n, stack[n].block.rewards, a), JournalOf(Rewarded(stack, a));
            && (n in j.index <==> mine != [])
            && (mine != [] ==> var iv := j.index[n];
                 iv.first + iv.count <= |j.log| && j.log[iv.first..iv.first + iv.count] == Items(mine))
  {
    RewardedAround(stack, n, a);
    RewardedInOrder(stack, a);
    var older, mine := Rewarded(stack[..n], a), RewardEntries(n, stack[n].block.rewards, a);
    var all := Rewarded(stack, a);
    var newer := all[|older + mine|..];
    assert all == older + mine + newer;
    IntervalOf(older, mine, newer, n);
  }
}
