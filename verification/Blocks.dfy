/**
 Applying and reverting a whole block: its transactions, the grants to sponsored units, the
 rewards.  Reverting gives the ledger back.
 */
module Blocks {
  import opened Basics
  import opened Totals
  import opened Rewards
  import opened Statistics
  import opened Services
  import opened Sponsorship
  import opened Books
  import opened SponsorIndex
  import opened DocumentValues
  import opened BlockDocs
  import opened BlockRewards
  import opened Transactions
  import Balances

  // `services` are the service reports among its transactions; they change nothing else.
  datatype Block = Block(txs: seq<Tx>, services: seq<Service>, miner: Address, rewards: seq<Reward>)

  // ----- Rewards on the balances -----

  function IncreaseAll(s: Balances.State, node: Address, rewards: seq<Reward>): Balances.State {
    if rewards == [] then s
    else
      var last := rewards[|rewards| - 1];
      Balances.Increase(IncreaseAll(s, node, rewards[..|rewards| - 1]), node, last.to, last.amount, true)
  }

  // From the last reward to the first; None where a balance is too small.
  function DecreaseAll(s: Balances.State, node: Address, rewards: seq<Reward>): Option<Balances.State>
    decreases |rewards|
  {
    if rewards == [] then Some(s)
    else
      var last := rewards[|rewards| - 1];
      var s' := Balances.Decrease(s, node, last.to, last.amount, true);
      if s'.None? then None else DecreaseAll(s'.value, node, rewards[..|rewards| - 1])
  }

  lemma {:induction false} IncreaseAllKeeps(s: Balances.State, node: Address, rewards: seq<Reward>)
    requires Balances.OkState(s, node) && Balances.Synced(s, node)
    ensures Balances.OkState(IncreaseAll(s, node, rewards), node) && Balances.Synced(IncreaseAll(s, node, rewards), node)
    ensures DecreaseAll(IncreaseAll(s, node, rewards), node, rewards) == Some(s)
  {
    if rewards == [] {
    } else {
      var init, last := rewards[..|rewards| - 1], rewards[|rewards| - 1];
      IncreaseAllKeeps(s, node, init);
      Balances.IncreaseKeeps(IncreaseAll(s, node, init), node, last.to, last.amount, true);
      Balances.DecreaseUndoesIncrease(IncreaseAll(s, node, init), node, last.to, last.amount, true);
    }
  }

  // ----- Amounts given back by cancelling transactions -----

  // The entries of cancelled sponsorships; None where an entry is missing or not cancelled.
  function CancelReturns(d: Docs, txs: seq<Tx>): Option<map<Address, Amount>> {
    if txs == [] then Some(map[])
    else
      var before := CancelReturns(d, txs[..|txs| - 1]);
      var action := txs[|txs| - 1].action;
      if before.None? || !action.CancelSponsor? then before
      else if !HasExpiry(d, action.hash) || ExpiryOf(d, action.hash).manuallyCancelled == 0 then None
      else Some(AddTo(before.value, action.sponsor, ExpiryOf(d, action.hash).manuallyCancelled))
  }

  lemma {:induction false} CancelReturnsSame(d: Docs, d': Docs, txs: seq<Tx>)
    requires d.expiring == d'.expiring && d.blockOf == d'.blockOf
    ensures CancelReturns(d, txs) == CancelReturns(d', txs)
  {
    if txs == [] {
    } else {
      CancelReturnsSame(d, d', txs[..|txs| - 1]);
    }
  }

  // ----- The block -----

  // Whether the ledger may take the block's transactions, one after the other.
  ghost predicate Takes(w: World, l: Ledger, blk: Block) {
    blk.miner != "" && AllApplied(w, l, blk.txs, blk.miner)
  }

  ghost function Shares(w: World, blk: Block): (stats: Option<Stats>)
    ensures stats.Some? ==> OkStats(stats.value) && Distinct(stats.value.viewed)
  {
    if !Servers(w.roles, blk.services) then None
    else StatsIn(w.registry, Counting(w.roles, blk.services, Role.Channel), Counting(w.roles, blk.services, Role.Storage))
  }

  // The units that were viewed according to the block.
  ghost function Viewed(w: World, blk: Block): (viewed: seq<Uri>)
    ensures Distinct(viewed)
  {
    if Shares(w, blk).Some? then Shares(w, blk).value.viewed else []
  }

  // The reward list for the payments of uses and expirations.
  ghost function ListOf(stats: Stats, back: map<Address, Amount>, table: seq<Amount>, block: nat,
                        miner: Address, slices: map<Hash, Payment>, rests: map<Hash, Payment>): Option<seq<Reward>>
    requires OkStats(stats)
  {
    var emission := Emission(table, block);
    if emission.None? then None
    else Some(RewardList(stats, emission.value, Total(Amounts(slices)), AddPayments(back, rests), miner))
  }

  lemma ListOfSum(stats: Stats, back: map<Address, Amount>, table: seq<Amount>, block: nat,
                  miner: Address, slices: map<Hash, Payment>, rests: map<Hash, Payment>)
    requires OkStats(stats) && ListOf(stats, back, table, block, miner, slices, rests).Some?
    ensures Emission(table, block).Some?
    ensures SumRewards(ListOf(stats, back, table, block, miner, slices, rests).value)
            == Emission(table, block).value + Total(Amounts(slices)) + Total(back) + Total(Amounts(rests))
  {
    AddPaymentsTotal(back, rests);
    RewardListConserves(stats, Emission(table, block).value, Total(Amounts(slices)), AddPayments(back, rests), miner);
  }

  // The rewards for given shares and returns, and the documents after them.
  ghost function GrantFor(stats: Stats, back: map<Address, Amount>, table: seq<Amount>, d: Docs, c: Chain,
                          miner: Address, due: seq<(Uri, Hash)>, dir: Direction): Option<(Docs, seq<Reward>)>
    requires OkStats(stats)
  {
    var grants := GrantDocs(d, c, stats.viewed, due, dir);
    if grants.None? then None
    else
      var rewards := ListOf(stats, back, table, c.length, miner, grants.value.0.pays, grants.value.1.pays);
      if rewards.None? then None else Some((grants.value.1.docs, rewards.value))
  }

  // The rewards the code grants for the block, and the documents after it, in one direction
  // of time; None where the code throws.
  ghost function Grant(w: World, table: seq<Amount>, d: Docs, blk: Block, due: seq<(Uri, Hash)>, dir: Direction): Option<(Docs, seq<Reward>)> {
    var back := CancelReturns(d, blk.txs);
    var stats := Shares(w, blk);
    if back.None? || stats.None? then None
    else GrantFor(stats.value, back.value, table, d, w.chain, blk.miner, due, dir)
  }

  ghost function DueIn(w: World, d: Docs, blk: Block): (due: seq<(Uri, Hash)>)
    ensures DueList(d, w.chain.length, Viewed(w, blk), due)
  {
    Listing(d, w.chain.length, Viewed(w, blk))
  }

  // The rewards are recomputed, compared with those in the block, and paid.
  ghost function Rewarded(w: World, table: seq<Amount>, l: Ledger, blk: Block): Option<Ledger> {
    var granted := Grant(w, table, l.docs, blk, DueIn(w, l.docs, blk), Forward);
    if granted.None? || granted.value.1 != blk.rewards then None
    else Some(l.(docs := granted.value.0, state := IncreaseAll(l.state, w.node, blk.rewards)))
  }

  // None where the block is not accepted.
  ghost function ApplyBlock(w: World, table: seq<Amount>, l: Ledger, blk: Block): Option<Ledger>
    requires Takes(w, l, blk)
  {
    Rewarded(w, table, ApplyAll(w, l, blk.txs, blk.miner), blk)
  }

  // With the block already taken off the chain.
  ghost function RevertBlock(w: World, table: seq<Amount>, l: Ledger, blk: Block): Option<Ledger> {
    var granted := Grant(w, table, l.docs, blk, DueIn(w, l.docs, blk), Backward(w.sort));
    if granted.None? || granted.value.1 != blk.rewards then None
    else
      var state := DecreaseAll(l.state, w.node, blk.rewards);
      if state.None? then None
      else RevertAll(w, l.(docs := granted.value.0, state := state.value), blk.txs, blk.miner)
  }

  lemma InvIsAllOk(w: World, l: Ledger)
    requires Inv(w, l)
    ensures AllOk(l.docs, w.chain.Now())
  {
    forall u | u in l.docs.books ensures Ok(l.docs.books[u]) && Fresh(l.docs.books[u], w.chain.Now()) { BooksOk(w, l, u); }
  }

  // The order in which the code happens to list the sponsorships due makes no difference.
  lemma GrantListing(w: World, table: seq<Amount>, d: Docs, blk: Block, due: seq<(Uri, Hash)>, due': seq<(Uri, Hash)>)
    requires AllOk(d, w.chain.Now()) && OkTable(d)
    requires DueList(d, w.chain.length, Viewed(w, blk), due) && DueList(d, w.chain.length, Viewed(w, blk), due')
    ensures Grant(w, table, d, blk, due, Forward) == Grant(w, table, d, blk, due', Forward)
  {
    var c, viewed := w.chain, Viewed(w, blk);
    if GrantDocs(d, c, viewed, due, Forward).Some? {
      ListingIsIrrelevant(d, c, c.Now(), viewed, due, due');
    } else if GrantDocs(d, c, viewed, due', Forward).Some? {
      ListingIsIrrelevant(d, c, c.Now(), viewed, due', due);
    }
  }

  lemma GrantParts(w: World, table: seq<Amount>, d: Docs, blk: Block, due: seq<(Uri, Hash)>, dir: Direction)
    requires Grant(w, table, d, blk, due, dir).Some?
    ensures GrantDocs(d, w.chain, Viewed(w, blk), due, dir).Some? && Shares(w, blk).Some? && CancelReturns(d, blk.txs).Some?
    ensures var (docs, rewards) := Grant(w, table, d, blk, due, dir).value;
            var (uses, expiries) := GrantDocs(d, w.chain, Viewed(w, blk), due, dir).value;
            && docs == expiries.docs
            && ListOf(Shares(w, blk).value, CancelReturns(d, blk.txs).value, table, w.chain.length, blk.miner, uses.pays, expiries.pays)
               == Some(rewards)
  {}

  lemma GrantOfParts(w: World, table: seq<Amount>, d: Docs, blk: Block, due: seq<(Uri, Hash)>, dir: Direction)
    requires GrantDocs(d, w.chain, Viewed(w, blk), due, dir).Some? && Shares(w, blk).Some? && CancelReturns(d, blk.txs).Some?
    ensures var (uses, expiries) := GrantDocs(d, w.chain, Viewed(w, blk), due, dir).value;
            var list := ListOf(Shares(w, blk).value, CancelReturns(d, blk.txs).value, table, w.chain.length, blk.miner, uses.pays, expiries.pays);
            Grant(w, table, d, blk, due, dir) == if list.Some? then Some((expiries.docs, list.value)) else None
  {}

  lemma QuietList(stats: Stats, back: map<Address, Amount>, table: seq<Amount>, block: nat, miner: Address, none: map<Hash, Payment>)
    requires stats == Stats([], [], [], []) && Emission(table, block).Some? && none == map[]
    ensures ListOf(stats, back, table, block, miner, none, none) ==
            Some(WithMiner(ReturnRewards(back), miner, Emission(table, block).value))
  {
    EmptyAmounts();
    NoPayments(back);
    NothingViewedRewards(stats, Emission(table, block).value, Total(Amounts(none)), back, miner);
  }

  // Without views and expirations a block pays the returns, and the miner the whole emission.
  lemma QuietGrant(stats: Stats, back: map<Address, Amount>, table: seq<Amount>, d: Docs, c: Chain, miner: Address, dir: Direction)
    requires stats == Stats([], [], [], []) && Emission(table, c.length).Some?
    ensures GrantFor(stats, back, table, d, c, miner, [], dir) ==
            Some((d, WithMiner(ReturnRewards(back), miner, Emission(table, c.length).value)))
  {
    var none: seq<(Uri, Hash)> := [];
    assert GrantDocs(d, c, stats.viewed, none, dir) == Some((Progress(d, map[]), Progress(d, map[])));
    QuietList(stats, back, table, c.length, miner, map[]);
  }

  lemma QuietBlock(w: World, table: seq<Amount>, l: Ledger, blk: Block, back: map<Address, Amount>)
    requires Shares(w, blk) == Some(Stats([], [], [], [])) && DueIn(w, l.docs, blk) == []
    requires Emission(table, w.chain.length).Some? && CancelReturns(l.docs, blk.txs) == Some(back)
    requires blk.rewards == WithMiner(ReturnRewards(back), blk.miner, Emission(table, w.chain.length).value)
    ensures Rewarded(w, table, l, blk) == Some(l.(state := IncreaseAll(l.state, w.node, blk.rewards)))
  {
    QuietGrant(Shares(w, blk).value, back, table, l.docs, w.chain, blk.miner, Forward);
  }

  // The documents' part of a block, forth and back.
  lemma GrantThereAndBack(w: World, table: seq<Amount>, d: Docs, blk: Block, due: seq<(Uri, Hash)>, due': seq<(Uri, Hash)>)
    requires OkTable(d) && AllOk(d, w.chain.Now())
    requires AllOrderly(d, w.chain.Now(), Viewed(w, blk), w.sort)
    requires DueList(d, w.chain.length, Viewed(w, blk), due)
    requires Grant(w, table, d, blk, due, Forward).Some?
    requires DueList(Grant(w, table, d, blk, due, Forward).value.0, w.chain.length, Viewed(w, blk), due')
    ensures var there := Grant(w, table, d, blk, due, Forward).value;
            && there.0.expiring == d.expiring && there.0.blockOf == d.blockOf
            && Grant(w, table, there.0, blk, due', Backward(w.sort)) == Some((d, there.1))
  {
    var there := Grant(w, table, d, blk, due, Forward).value.0;
    GrantParts(w, table, d, blk, due, Forward);
    GrantDocsThereAndBack(d, w.chain, Viewed(w, blk), due, due', w.sort);
    CancelReturnsSame(d, there, blk.txs);
    GrantOfParts(w, table, there, blk, due', Backward(w.sort));
  }

  // Every viewed unit is used after its last time point, or undoing its use reports nothing.
  ghost predicate OrderlyBlock(w: World, l: Ledger, blk: Block)
    requires Takes(w, l, blk)
  {
    RevertAllUndoes(w, l, blk.txs, blk.miner);
    InvIsAllOk(w, ApplyAll(w, l, blk.txs, blk.miner));
    AllOrderly(ApplyAll(w, l, blk.txs, blk.miner).docs, w.chain.Now(), Viewed(w, blk), w.sort)
  }

  // Where the library's sort leaves the first sponsor of a unit first, there is no other block.
  lemma KeptFirstIsOrderly(w: World, l: Ledger, blk: Block)
    requires Takes(w, l, blk) && KeepsFirst(w.sort)
    ensures OrderlyBlock(w, l, blk)
  {
    var t, d := w.chain.Now(), ApplyAll(w, l, blk.txs, blk.miner).docs;
    RevertAllUndoes(w, l, blk.txs, blk.miner);
    InvIsAllOk(w, ApplyAll(w, l, blk.txs, blk.miner));
    forall u | u in Viewed(w, blk) ensures Orderly(d, t, u, w.sort) {
      if u in d.books && t <= d.books[u].Last() { EarlyUndoPaysNothing(d.books[u], t, w.sort); }
    }
  }

  // Reverting an accepted, orderly block passes the code's own check of the rewards and
  // restores balances, books, flags, expirations, holders and authorizations.
  lemma RevertBlockUndoes(w: World, table: seq<Amount>, l: Ledger, blk: Block)
    requires Takes(w, l, blk) && ApplyBlock(w, table, l, blk).Some? && OrderlyBlock(w, l, blk)
    ensures RevertBlock(w, table, ApplyBlock(w, table, l, blk).value, blk) == Some(l)
  {
    var l1 := ApplyAll(w, l, blk.txs, blk.miner);
    RevertAllUndoes(w, l, blk.txs, blk.miner);
    InvIsAllOk(w, l1);
    var l2 := ApplyBlock(w, table, l, blk).value;
    GrantThereAndBack(w, table, l1.docs, blk, DueIn(w, l1.docs, blk), DueIn(w, l2.docs, blk));
    IncreaseAllKeeps(l1.state, w.node, blk.rewards);
    assert l2.(docs := l1.docs, state := l1.state) == l1;
  }

  // ----- The next block -----

  // The same node one block later.
  function Next(w: World): World {
    w.(chain := w.chain.(length := w.chain.length + 1))
  }

  lemma EffectKeepsBook(b: Book, t: int, used: bool, hashes: set<Hash>)
    requires Ok(b) && Fresh(b, t)
    ensures var b' := BookEffect(b, t, used, hashes);
            && Ok(b') && Fresh(b', t + BLOCK_MINE_DELAY) && SameItems(b, b')
            && forall i :: 0 <= i < |b.items| && b.items[i].cancelled ==> b'.items[i].cancelled
  {
    UsedIsOk(b, t);
    MarkSetIsOk(b, t, hashes);
  }

  // The grants of a block keep the store in order for the next one.
  lemma EffectKeepsOk(d: Docs, c: Chain, used: set<Uri>, due: set<(Uri, Hash)>)
    requires OkDocs(d, c.Now()) && InTime(d, c) && AllOk(d, c.Now())
    ensures var d' := Effect(d, c.Now(), used, due);
            OkDocs(d', c.Now() + BLOCK_MINE_DELAY) && InTime(d', c)
  {
    var t, d' := c.Now(), Effect(d, c.Now(), used, due);
    forall u | u in d.books
      ensures OkBook(d', t + BLOCK_MINE_DELAY, u) && SameItems(d.books[u], d'.books[u])
      ensures forall i :: 0 <= i < |d'.books[u].items| ==> OkEntry(d', u, d'.books[u].items[i])
    {
      EffectKeepsBook(d.books[u], t, u in used, HashesOf(due, u));
      forall i | 0 <= i < |d'.books[u].items| ensures OkEntry(d', u, d'.books[u].items[i]) {
        EntryOfFlagged(d, d', u, d.books[u].items[i], d'.books[u].items[i]);
      }
    }
    TableFrame(d, d');
    InTimeFrame(d, d', c);
  }

  lemma EntryOfFlagged(d: Docs, d': Docs, uri: Uri, it: Item, it': Item)
    requires OkEntry(d, uri, it) && d'.expiring == d.expiring && d'.blockOf == d.blockOf
    requires it'.(cancelled := false) == it.(cancelled := false) && (it.cancelled ==> it'.cancelled)
    ensures OkEntry(d', uri, it')
  {
    assert it'.(cancelled := false).hash == it'.hash && it.(cancelled := false).hash == it.hash;
  }

  // After an accepted block the node is ready for the next one: balances, mirror, books,
  // expirations and authorizations are in order for the chain that is one block longer.
  lemma ApplyBlockKeepsInv(w: World, table: seq<Amount>, l: Ledger, blk: Block)
    requires Takes(w, l, blk) && ApplyBlock(w, table, l, blk).Some?
    ensures Inv(Next(w), ApplyBlock(w, table, l, blk).value) && Ready(Next(w), ApplyBlock(w, table, l, blk).value, true)
  {
    var l1 := ApplyAll(w, l, blk.txs, blk.miner);
    RevertAllUndoes(w, l, blk.txs, blk.miner);
    InvIsAllOk(w, l1);
    var due := DueIn(w, l1.docs, blk);
    GrantParts(w, table, l1.docs, blk, due, Forward);
    GrantEffect(l1.docs, w.chain, Viewed(w, blk), due);
    EffectKeepsOk(l1.docs, w.chain, Elements(Viewed(w, blk)), Elements(due));
    IncreaseAllKeeps(l1.state, w.node, blk.rewards);
    var l2 := ApplyBlock(w, table, l, blk).value;
    assert InTime(l2.docs, w.chain);
    InTimeNext(l2.docs, w.chain, Next(w).chain);
  }

  lemma InTimeNext(d: Docs, c: Chain, c': Chain)
    requires InTime(d, c) && c.genesis == c'.genesis
    ensures InTime(d, c')
  {
    forall uri, i | uri in d.books && 0 <= i < |d.books[uri].items| ensures EndsInTime(d, c', d.books[uri].items[i]) {
      assert EndsInTime(d, c, d.books[uri].items[i]);
    }
  }

  // The grants of a block add and remove no expirations.
  lemma GrantsKeepTable(w: World, table: seq<Amount>, l: Ledger, blk: Block)
    requires Takes(w, l, blk) && ApplyBlock(w, table, l, blk).Some?
    ensures ApplyBlock(w, table, l, blk).value.docs.blockOf == ApplyAll(w, l, blk.txs, blk.miner).docs.blockOf
    ensures ApplyBlock(w, table, l, blk).value.docs.expiring == ApplyAll(w, l, blk.txs, blk.miner).docs.expiring
  {
    var l1 := ApplyAll(w, l, blk.txs, blk.miner);
    RevertAllUndoes(w, l, blk.txs, blk.miner);
    InvIsAllOk(w, l1);
    var due := DueIn(w, l1.docs, blk);
    GrantParts(w, table, l1.docs, blk, due, Forward);
    GrantEffect(l1.docs, w.chain, Viewed(w, blk), due);
  }
}
