/** A block that creates coins, for anyone: it cancels a sponsorship for the second time. */
module SecondReturn {
  import opened Basics
  import opened Collecting
  import opened Totals
  import opened Ordering
  import opened Rewards
  import opened Statistics
  import opened Sponsorship
  import opened Books
  import opened DocumentValues
  import opened BlockDocs
  import opened BlockRewards
  import opened Transactions
  import opened Blocks
  import opened Conservation
  import Balances
  import SponsorIndex
  import Services

  // One hour sponsored from time 0, taken back by hand in full; the block expiring it would be
  // number 6.  The unit was viewed in block 7, so the item is exhausted.
  const BOOK := Book([Item(3600, 0, 3600, "a", "h", 1, true)], [0, 4200])
  const DOCS := Docs(map["u" := BOOK], map[6 := map["h" := Expiry("u", "h", 6, 3600)]], map["h" := 6], map[])
  const LEDGER := Ledger(Balances.State(map["a" := 3600], map[]), DOCS, map[])
  const REGISTRY: Registry := Records(map[], map["u" := ContentUnit("channel", 1)])
  const WORLD := World(Chain(0, 8), "node", REGISTRY, {}, map[], SponsorIndex.Insertion())

  // The second cancellation, by anyone, and the block with it and the rewards the code computes.
  function Cancel(who: Address): Tx {
    Tx(CancelSponsor(who, "u", "h"), who, 0, "t")
  }

  function BlockFor(who: Address): Block {
    Block([Cancel(who)], [], "miner", [Reward(who, 3600, SponsoredReturn)])
  }

  lemma BookIsOk()
    ensures Ok(BOOK) && Fresh(BOOK, 4800) && CancelPays(BOOK, 4800, "h") == map[]
  {
    assert OkItem(BOOK.items[0], 2);
    CancelPaysOne(BOOK, 4800, "h");
    ScanPaid(BOOK, 4800, "h", 0);
  }

  lemma LedgerIsOk()
    ensures Inv(WORLD, LEDGER) && Ready(WORLD, LEDGER, true)
  {
    BookIsOk();
    assert OkBook(DOCS, 4800, "u");
    assert OkRow(DOCS, 6, "h");
    assert EndsInTime(DOCS, WORLD.chain, BOOK.items[0]);
  }

  // The node applies the transaction, and it changes nothing.
  lemma CancelIsApplied(who: Address)
    requires who != ""
    ensures Inv(WORLD, LEDGER) && Ready(WORLD, LEDGER, true) && Validated(Cancel(who)) && Unseen(LEDGER, Cancel(who))
    ensures ApplyTransaction(WORLD, LEDGER, Cancel(who), "miner") == Applied(LEDGER)
  {
    LedgerIsOk();
    BookIsOk();
    assert WORLD.chain.TimeOf(8) == 4800;
  }

  lemma BlockIsTaken(who: Address)
    requires who != ""
    ensures Takes(WORLD, LEDGER, BlockFor(who)) && ApplyAll(WORLD, LEDGER, BlockFor(who).txs, "miner") == LEDGER
  {
    CancelIsApplied(who);
    assert BlockFor(who).txs[1..] == [];
  }

  lemma NothingViewed(who: Address)
    ensures Shares(WORLD, BlockFor(who)) == Some(Stats([], [], [], [])) && Viewed(WORLD, BlockFor(who)) == []
  {
    StatsAreWhole(REGISTRY, []);
    Services.NothingReported(map[]);
  }

  lemma FirstOrEmpty<T>(s: seq<T>)
    ensures s == [] || s[0] in s
  {}

  lemma NothingDueNow(who: Address)
    ensures DueIn(WORLD, DOCS, BlockFor(who)) == []
  {
    var due := DueIn(WORLD, DOCS, BlockFor(who));
    forall p ensures p !in due { assert (p.0, p.1) == p; }
    FirstOrEmpty(due);
  }

  lemma OneKey(who: Address)
    ensures Ascending({who}) == [who]
  {
    var keys := Ascending({who});
    assert |keys| == 1 && keys[0] in keys;
  }

  lemma OneReturn(who: Address, back: map<Address, Amount>)
    requires back == map[who := 3600]
    ensures ReturnRewards(back) == BlockFor(who).rewards
  {
    OneKey(who);
    assert back.Keys == {who};
  }

  lemma ReturnedAgain(who: Address)
    ensures CancelReturns(DOCS, BlockFor(who).txs) == Some(map[who := 3600])
  {
    assert BlockFor(who).txs[..0] == [];
  }

  lemma BlockIsRewarded(who: Address, back: map<Address, Amount>, table: seq<Amount>)
    requires back == map[who := 3600] && table == [0]
    ensures Rewarded(WORLD, table, LEDGER, BlockFor(who)) ==
            Some(LEDGER.(state := IncreaseAll(LEDGER.state, "node", BlockFor(who).rewards)))
  {
    NothingViewed(who);
    NothingDueNow(who);
    ReturnedAgain(who);
    OneReturn(who, back);
    QuietBlock(WORLD, table, LEDGER, BlockFor(who), back);
  }

  // Whoever asks for it: the block is accepted, he gets the 3600 that the sponsor had got back
  // before, and there are 3600 more than before, with an emission of nothing.
  lemma SecondReturnExample(who: Address)
    requires who != ""
    ensures Inv(WORLD, LEDGER) && Takes(WORLD, LEDGER, BlockFor(who)) && ApplyBlock(WORLD, [0], LEDGER, BlockFor(who)).Some?
    ensures Wealth(ApplyBlock(WORLD, [0], LEDGER, BlockFor(who)).value) == Wealth(LEDGER) + EmissionOf([0], 8) + 3600
    ensures Balance(ApplyBlock(WORLD, [0], LEDGER, BlockFor(who)).value, who) == Balance(LEDGER, who) + 3600
  {
    LedgerIsOk();
    BlockIsTaken(who);
    BlockIsRewarded(who, map[who := 3600], [0]);
    NothingViewed(who);
    BlockAccount(WORLD, [0], LEDGER, BlockFor(who));
    ReturnedAgain(who);
    NothingWithdrawn(who);
    TotalOfOne(who);
    PaidOnce(who);
  }

  lemma PaidOnce(who: Address)
    ensures var s := IncreaseAll(LEDGER.state, "node", BlockFor(who).rewards);
            Lookup(s.accounts, who) == Lookup(LEDGER.state.accounts, who) + 3600
  {
    assert BlockFor(who).rewards[..0] == [];
    Balances.IncreaseKeeps(LEDGER.state, "node", who, 3600, true);
  }

  lemma TotalOfOne(who: Address)
    ensures Total(map[who := 3600]) == 3600
  {
    var none: map<Address, Amount> := map[];
    TotalSet(none, who, 3600);
    TotalOfEmpty(none);
    assert none[who := 3600] == map[who := 3600];
  }

  lemma NothingWithdrawn(who: Address)
    requires who != ""
    ensures Takes(WORLD, LEDGER, BlockFor(who)) && WithdrawnByBlock(WORLD, LEDGER, BlockFor(who)) == 0
  {
    BlockIsTaken(who);
    CancelIsApplied(who);
    BookIsOk();
    EmptyAmounts();
    assert Withdrawn(WORLD, LEDGER, Cancel(who)) == 0;
    assert BlockFor(who).txs[0] == Cancel(who) && BlockFor(who).txs[1..] == [];
    assert WithdrawnAll(WORLD, LEDGER, BlockFor(who).txs, "miner") == 0;
  }
}
