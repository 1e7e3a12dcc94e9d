/**
 Where the coins are: on accounts, or owed by sponsorships.  What every step of a block
 does to that sum.
 */
module Conservation {
  import opened Basics
  import opened Totals
  import opened Rewards
  import opened Sponsorship
  import opened Books
  import opened DocumentValues
  import opened BlockDocs
  import opened BlockRewards
  import opened Transactions
  import opened Blocks
  import opened Forks
  import Balances

  // ----- Owed by all sponsorships -----

  function OwedBy(b: Book): Amount {
    if Ok(b) then Owed(b, |b.items|) else 0
  }

  function OwedMap(d: Docs): map<Uri, Amount> {
    map uri | uri in d.books :: OwedBy(d.books[uri])
  }

  ghost function OwedIn(d: Docs): Amount {
    Total(OwedMap(d))
  }

  lemma OwedWithBook(d: Docs, uri: Uri, b: Book)
    ensures OwedIn(WithBook(d, uri, b)) == OwedIn(d) - (if uri in d.books then OwedBy(d.books[uri]) else 0) + OwedBy(b)
  {
    assert OwedMap(WithBook(d, uri, b)) == OwedMap(d)[uri := OwedBy(b)];
    TotalSet(OwedMap(d), uri, OwedBy(b));
  }

  // ----- Grants -----

  function LostIn(d: Docs, t: int, uri: Uri): Amount {
    if uri in d.books && Ok(d.books[uri]) then LostOf(d.books[uri], t, |d.books[uri].items|) else 0
  }

  // What the viewed units lose because they are used before their first time point.
  function LostByUses(d: Docs, t: int, uris: seq<Uri>): Amount {
    if uris == [] then 0 else LostByUses(d, t, uris[..|uris| - 1]) + LostIn(d, t, uris[|uris| - 1])
  }

  lemma {:induction false} NothingLost(d: Docs, t: int, uris: seq<Uri>)
    requires forall u <- uris :: u in d.books ==> Ok(d.books[u]) && t > d.books[u].Last()
    ensures LostByUses(d, t, uris) == 0
  {
    if uris == [] {
    } else {
      var last := uris[|uris| - 1];
      assert last in uris;
      NothingLost(d, t, uris[..|uris| - 1]);
      if last in d.books { NoneLost(d.books[last], t, |d.books[last].items|); }
    }
  }

  lemma {:induction false} NoneLost(b: Book, t: int, n: nat)
    requires Ok(b) && t > b.Last() && n <= |b.items|
    ensures LostOf(b, t, n) == 0
  {
    if n == 0 {
    } else {
      NoneLost(b, t, n - 1);
    }
  }

  lemma {:induction false} UsesOwe(d: Docs, c: Chain, t: int, uris: seq<Uri>)
    requires AllOk(d, t) && t == c.Now() && Distinct(uris) && UseAll(d, c, uris, Forward).Some?
    ensures var r := UseAll(d, c, uris, Forward).value;
            OwedIn(d) == Total(Amounts(r.pays)) + LostByUses(d, t, uris) + OwedIn(r.docs)
  {
    if uris == [] {
      EmptyAmounts();
    } else {
      var init, last := uris[..|uris| - 1], uris[|uris| - 1];
      ElementsOfPrefix(uris);
      UsesOwe(d, c, t, init);
      UseAllForward(d, c, t, init);
      var before := UseAll(d, c, init, Forward).value;
      var step := UseStep(before.docs, c, last, Forward, "").value;
      TotalUnion(before.pays, step.pays);
      if last in d.books {
        EffectBooks(d, t, Elements(init), {}, last);
        assert HashesOf({}, last) == {};
        NothingMarked(d.books[last], t);
        UseOwes(d.books[last], t);
        OwedWithBook(before.docs, last, Used(d.books[last], t));
      } else {
        EmptyAmounts();
      }
    }
  }

  lemma ExpiryOwes(e: Docs, c: Chain, p: (Uri, Hash))
    requires p.1 != "" && UseStep(e, c, p.0, Forward, p.1).Some?
    ensures var r := UseStep(e, c, p.0, Forward, p.1).value;
            && OwedIn(e) == Total(Amounts(r.pays)) + OwedIn(r.docs)
            && r.pays.Keys <= {p.1}
  {
    var (uri, hash) := p;
    if uri in e.books {
      var b := e.books[uri];
      StepOnBook(e, c, uri, Forward, hash);
      CancelPaysOne(b, c.Now(), hash);
      OwedWithBook(e, uri, Moved(b, c.Now(), hash, true));
      if hash in CancelPays(b, c.Now(), hash) {
        CancelOwes(b, c.Now(), hash);
      } else {
        assert CancelPays(b, c.Now(), hash) == map[];
        EmptyAmounts();
      }
    } else {
      EmptyAmounts();
    }
  }

  lemma {:induction false} ExpiriesOwe(e: Docs, c: Chain, due: seq<(Uri, Hash)>)
    requires Nameable(due) && ExpireAll(e, c, due, Forward).Some?
    requires forall i, j :: 0 <= i < j < |due| ==> due[i].1 != due[j].1
    ensures var r := ExpireAll(e, c, due, Forward).value;
            && OwedIn(e) == Total(Amounts(r.pays)) + OwedIn(r.docs)
            && forall h <- r.pays :: exists i :: 0 <= i < |due| && due[i].1 == h
  {
    if due == [] {
      EmptyAmounts();
    } else {
      var init, last := due[..|due| - 1], due[|due| - 1];
      assert last in due;
      ExpiriesOwe(e, c, init);
      var before := ExpireAll(e, c, init, Forward).value;
      ExpiryOwes(before.docs, c, last);
      var step := UseStep(before.docs, c, last.0, Forward, last.1).value;
      forall h | h in before.pays ensures h != last.1 && exists i :: 0 <= i < |due| && due[i].1 == h {
        var i :| 0 <= i < |init| && init[i].1 == h;
        assert due[i].1 == h;
      }
      TotalUnion(before.pays, step.pays);
    }
  }

  // ----- Transactions -----

  ghost function Wealth(l: Ledger): Amount {
    Total(l.state.accounts) + OwedIn(l.docs)
  }

  lemma PutTotal(m: Balances.Table, a: Address, v: Amount)
    ensures Total(Balances.Put(m, a, v)) == Total(m) - Lookup(m, a) + v
    ensures Lookup(m, a) <= Total(m)
  {
    TotalSet(m, a, v);
  }

  lemma IncreaseTotal(s: Balances.State, node: Address, a: Address, amount: Amount, chain: bool)
    ensures Total(Balances.Increase(s, node, a, amount, chain).accounts) == Total(s.accounts) + amount
  {
    PutTotal(s.accounts, a, Lookup(s.accounts, a) + amount);
  }

  lemma DecreaseTotal(s: Balances.State, node: Address, a: Address, amount: Amount, chain: bool)
    requires Balances.Decrease(s, node, a, amount, chain).Some?
    ensures Total(Balances.Decrease(s, node, a, amount, chain).value.accounts) == Total(s.accounts) - amount
  {
    if amount != 0 { PutTotal(s.accounts, a, Lookup(s.accounts, a) - amount); }
  }

  lemma MoveTotal(s: Balances.State, node: Address, from: Address, to: Address, amount: Amount, chain: bool)
    requires Balances.Move(s, node, from, to, amount, chain).Some?
    ensures Total(Balances.Move(s, node, from, to, amount, chain).value.accounts) == Total(s.accounts)
  {
    IncreaseTotal(s, node, to, amount, chain);
    DecreaseTotal(Balances.Increase(s, node, to, amount, chain), node, from, amount, chain);
  }

  lemma {:induction false} IncreaseAllTotal(s: Balances.State, node: Address, rewards: seq<Reward>)
    ensures Total(IncreaseAll(s, node, rewards).accounts) == Total(s.accounts) + SumRewards(rewards)
  {
    if rewards == [] {
    } else {
      var init, last := rewards[..|rewards| - 1], rewards[|rewards| - 1];
      IncreaseAllTotal(s, node, init);
      IncreaseTotal(IncreaseAll(s, node, init), node, last.to, last.amount, true);
    }
  }

  lemma {:induction false} OwedSponsored(b: Book, it: Item, n: nat)
    requires Ok(b) && Ok(Sponsored(b, it)) && n <= |b.items|
    ensures Owed(Sponsored(b, it), n) == Owed(b, n)
  {
    if n == 0 {
    } else {
      OwedSponsored(b, it, n - 1);
      assert Sponsored(b, it).items[n - 1] == b.items[n - 1];
    }
  }

  // A new sponsorship owes its whole amount.
  lemma SponsorOwes(d: Docs, c: Chain, s: Sponsoring, hash: Hash)
    requires SponsorApply(d, c, s, hash).Some? && Ok(BookWith(d, s, hash))
    requires s.uri in d.books ==> Ok(d.books[s.uri])
    ensures OwedIn(SponsorApply(d, c, s, hash).value) == OwedIn(d) + s.amount
  {
    var b := BookWith(d, s, hash);
    var n := |b.items| - 1;
    EarnedEnds(b.items[n]);
    assert Remaining(b, n) == s.amount;
    assert Owed(b, |b.items|) == Owed(b, n) + s.amount;
    OwedFrame(SponsorApply(d, c, s, hash).value, WithBook(d, s.uri, b));
    OwedWithBook(d, s.uri, b);
    assert s.uri !in d.books ==> n == 0;
    if s.uri in d.books { OwedSponsored(d.books[s.uri], NewItem(s, hash), n); }
  }

  // What a cancelling transaction takes out of its sponsorship.
  ghost function Withdrawn(w: World, l: Ledger, tx: Tx): Amount {
    if tx.action.CancelSponsor? && tx.action.uri in l.docs.books && Ok(l.docs.books[tx.action.uri])
    then Total(Amounts(CancelPays(l.docs.books[tx.action.uri], w.chain.Now(), tx.action.hash)))
    else 0
  }

  lemma OwedFrame(d: Docs, d': Docs)
    requires d.books == d'.books
    ensures OwedIn(d) == OwedIn(d')
  {
    assert OwedMap(d) == OwedMap(d');
  }

  lemma CancelledOwes(d: Docs, uri: Uri, t: int, hash: Hash, account: Address)
    requires hash != "" && uri in d.books && Ok(d.books[uri]) && hash in CancelPays(d.books[uri], t, hash)
    requires HasExpiry(d, hash) && !IsCancelled(d.books[uri], hash)
    ensures OwedIn(CancelledDocs(d, uri, t, hash, account)) + Total(Amounts(CancelPays(d.books[uri], t, hash))) == OwedIn(d)
  {
    var b := d.books[uri];
    CancelOwes(b, t, hash);
    OwedWithBook(d, uri, Cancelled(b, t, hash, true));
    OwedFrame(CancelledDocs(d, uri, t, hash, account), WithBook(d, uri, Cancelled(b, t, hash, true)));
  }

  lemma CancellingOwes(d: Docs, uri: Uri, t: int, hash: Hash, account: Address)
    requires hash != "" && uri in d.books && Ok(d.books[uri])
    requires Cancelling(d, uri, t, Forward, hash, account, false).Done?
    ensures OwedIn(Cancelling(d, uri, t, Forward, hash, account, false).docs)
            + Total(Amounts(CancelPays(d.books[uri], t, hash))) == OwedIn(d)
  {
    CancelPaysOne(d.books[uri], t, hash);
    if hash in CancelPays(d.books[uri], t, hash) {
      ForwardDone(d, uri, t, hash, account);
      CancelledOwes(d, uri, t, hash, account);
    } else {
      assert CancelPays(d.books[uri], t, hash) == map[];
      EmptyAmounts();
    }
  }

  lemma CancelWithdraws(w: World, l: Ledger, uri: Uri, hash: Hash, account: Address)
    requires Inv(w, l) && hash != "" && uri in l.docs.books
    requires Cancelling(l.docs, uri, w.chain.Now(), Forward, hash, account, false).Done?
    ensures Ok(l.docs.books[uri])
    ensures OwedIn(Cancelling(l.docs, uri, w.chain.Now(), Forward, hash, account, false).docs)
            + Total(Amounts(CancelPays(l.docs.books[uri], w.chain.Now(), hash))) == OwedIn(l.docs)
  {
    BooksOk(w, l, uri);
    CancellingOwes(l.docs, uri, w.chain.Now(), hash, account);
  }

  lemma SponsorKeepsWealth(w: World, l: Ledger, s: Sponsoring, hash: Hash, chain: bool)
    requires Inv(w, l) && s.hours > 0 && hash != "" && hash !in l.docs.blockOf
    requires Balances.Decrease(l.state, w.node, s.sponsor, s.amount, chain).Some?
    ensures Total(Balances.Decrease(l.state, w.node, s.sponsor, s.amount, chain).value.accounts) == Total(l.state.accounts) - s.amount
    ensures OwedIn(SponsorApply(l.docs, w.chain, s, hash).value) == OwedIn(l.docs) + s.amount
  {
    DecreaseTotal(l.state, w.node, s.sponsor, s.amount, chain);
    if s.uri in l.docs.books { BooksOk(w, l, s.uri); }
    SponsorKeepsOk(l.docs, w.chain.Now(), w.chain, s, hash);
    assert OkBook(SponsorApply(l.docs, w.chain, s, hash).value, w.chain.Now(), s.uri);
    SponsorOwes(l.docs, w.chain, s, hash);
  }

  lemma CancelKeepsWealth(w: World, l: Ledger, tx: Tx, chain: bool)
    requires Inv(w, l) && Validated(tx) && tx.action.CancelSponsor? && Apply(w, l, tx, chain).Some?
    ensures Wealth(Apply(w, l, tx, chain).value) + Withdrawn(w, l, tx) == Wealth(l)
  {
    if tx.action.uri in l.docs.books {
      assert w.chain.TimeOf(w.chain.length) == w.chain.Now();
      CancelWithdraws(w, l, tx.action.uri, tx.action.hash, tx.action.sponsor);
    }
  }

  lemma ActionKeepsWealth(w: World, l: Ledger, tx: Tx, chain: bool)
    requires Inv(w, l) && Validated(tx) && Unseen(l, tx) && Ready(w, l, chain)
    requires CanApply(w, l, tx) && Apply(w, l, tx, chain).Some?
    ensures Wealth(Apply(w, l, tx, chain).value) + Withdrawn(w, l, tx) == Wealth(l)
  {
    match tx.action
    case Transfer(from, to, amount) => MoveTotal(l.state, w.node, from, to, amount, chain);
    case Sponsor(s) => SponsorKeepsWealth(w, l, s, tx.hash, chain);
    case CancelSponsor(sponsor, uri, hash) =>
      CancelKeepsWealth(w, l, tx, chain);
    case UpdateStorage(storage, file, store) => OwedFrame(l.docs, StorageUpdated(l.docs, file, storage, store));
    case UpdateAuthority(_) =>
  }

  // A transaction moves coins; only a cancellation takes some out, for the block to return.
  lemma TransactionKeepsWealth(w: World, l: Ledger, tx: Tx, key: Address)
    requires Inv(w, l) && Validated(tx) && Unseen(l, tx) && Ready(w, l, key != "")
    requires ApplyTransaction(w, l, tx, key).Applied?
    ensures Wealth(ApplyTransaction(w, l, tx, key).ledger) + Withdrawn(w, l, tx) == Wealth(l)
  {
    ActionKeepsWealth(w, l, tx, key != "");
    if key != "" {
      var l1 := Apply(w, l, tx, true).value;
      MoveTotal(l1.state, w.node, Owner(tx.action), key, tx.fee, true);
    }
  }

  ghost function WithdrawnAll(w: World, l: Ledger, txs: seq<Tx>, key: Address): Amount
    requires AllApplied(w, l, txs, key)
    decreases |txs|
  {
    if txs == [] then 0
    else Withdrawn(w, l, txs[0]) + WithdrawnAll(w, ApplyTransaction(w, l, txs[0], key).ledger, txs[1..], key)
  }

  lemma {:induction false} TransactionsKeepWealth(w: World, l: Ledger, txs: seq<Tx>, key: Address)
    requires AllApplied(w, l, txs, key)
    ensures Wealth(ApplyAll(w, l, txs, key)) + WithdrawnAll(w, l, txs, key) == Wealth(l)
    decreases |txs|
  {
    if txs == [] {
    } else {
      TransactionKeepsWealth(w, l, txs[0], key);
      TransactionsKeepWealth(w, ApplyTransaction(w, l, txs[0], key).ledger, txs[1..], key);
    }
  }

  // ----- The block -----

  // Uses and expirations: what the books owe less is paid or lost.
  lemma GrantDocsOwe(d: Docs, c: Chain, viewed: seq<Uri>, due: seq<(Uri, Hash)>)
    requires AllOk(d, c.Now()) && OkTable(d) && Distinct(viewed) && DueList(d, c.length, viewed, due)
    requires GrantDocs(d, c, viewed, due, Forward).Some?
    ensures var (uses, expiries) := GrantDocs(d, c, viewed, due, Forward).value;
            OwedIn(d) == Total(Amounts(uses.pays)) + Total(Amounts(expiries.pays)) + LostByUses(d, c.Now(), viewed) + OwedIn(expiries.docs)
  {
    DueFacts(d, c.length, viewed, due);
    UsesOwe(d, c, c.Now(), viewed);
    forall i, j | 0 <= i < j < |due| ensures due[i].1 != due[j].1 { assert due[i] in due && due[j] in due; }
    ExpiriesOwe(UseAll(d, c, viewed, Forward).value.docs, c, due);
  }

  // Rewards bring in the emission, the slices, the expired rest and the returns for cancels.
  lemma GrantOwes(w: World, table: seq<Amount>, d: Docs, blk: Block, due: seq<(Uri, Hash)>)
    requires AllOk(d, w.chain.Now()) && OkTable(d) && DueList(d, w.chain.length, Viewed(w, blk), due)
    requires Grant(w, table, d, blk, due, Forward).Some?
    ensures CancelReturns(d, blk.txs).Some? && Emission(table, w.chain.length).Some?
    ensures var (d', rewards) := Grant(w, table, d, blk, due, Forward).value;
            SumRewards(rewards) + OwedIn(d') + LostByUses(d, w.chain.Now(), Viewed(w, blk)) ==
            OwedIn(d) + Emission(table, w.chain.length).value + Total(CancelReturns(d, blk.txs).value)
  {
    GrantParts(w, table, d, blk, due, Forward);
    GrantDocsOwe(d, w.chain, Viewed(w, blk), due);
    var (uses, expiries) := GrantDocs(d, w.chain, Viewed(w, blk), due, Forward).value;
    ListOfSum(Shares(w, blk).value, CancelReturns(d, blk.txs).value, table, w.chain.length, blk.miner, uses.pays, expiries.pays);
  }

  // What early uses of the block's viewed units lose.
  ghost function LostByBlock(w: World, l: Ledger, blk: Block): Amount
    requires Takes(w, l, blk)
  {
    LostByUses(ApplyAll(w, l, blk.txs, blk.miner).docs, w.chain.Now(), Viewed(w, blk))
  }

  ghost function WithdrawnByBlock(w: World, l: Ledger, blk: Block): Amount
    requires Takes(w, l, blk)
  {
    WithdrawnAll(w, l, blk.txs, blk.miner)
  }

  // What the block returns for cancellations.
  ghost function ReturnedByBlock(w: World, l: Ledger, blk: Block): Amount
    requires Takes(w, l, blk)
  {
    var back := CancelReturns(ApplyAll(w, l, blk.txs, blk.miner).docs, blk.txs);
    if back.Some? then Total(back.value) else 0
  }

  function EmissionOf(table: seq<Amount>, block: nat): Amount {
    if Emission(table, block).Some? then Emission(table, block).value else 0
  }

  lemma RewardedAccount(w: World, table: seq<Amount>, l: Ledger, blk: Block)
    requires OkTable(l.docs) && AllOk(l.docs, w.chain.Now()) && Rewarded(w, table, l, blk).Some?
    ensures Emission(table, w.chain.length).Some? && CancelReturns(l.docs, blk.txs).Some?
    ensures Wealth(Rewarded(w, table, l, blk).value) + LostByUses(l.docs, w.chain.Now(), Viewed(w, blk))
            == Wealth(l) + Emission(table, w.chain.length).value + Total(CancelReturns(l.docs, blk.txs).value)
  {
    GrantOwes(w, table, l.docs, blk, DueIn(w, l.docs, blk));
    IncreaseAllTotal(l.state, w.node, blk.rewards);
  }

  // The exact account of a block: wealth grows by the emission and by what is returned for
  // cancellations beyond what they took out, and shrinks by what early uses lose.
  lemma BlockAccount(w: World, table: seq<Amount>, l: Ledger, blk: Block)
    requires Takes(w, l, blk) && ApplyBlock(w, table, l, blk).Some?
    ensures Emission(table, w.chain.length).Some?
    ensures CancelReturns(ApplyAll(w, l, blk.txs, blk.miner).docs, blk.txs).Some?
    ensures Wealth(ApplyBlock(w, table, l, blk).value) + LostByBlock(w, l, blk) + WithdrawnByBlock(w, l, blk)
            == Wealth(l) + EmissionOf(table, w.chain.length) + ReturnedByBlock(w, l, blk)
  {
    RevertAllUndoes(w, l, blk.txs, blk.miner);
    InvIsAllOk(w, ApplyAll(w, l, blk.txs, blk.miner));
    TransactionsKeepWealth(w, l, blk.txs, blk.miner);
    RewardedAccount(w, table, ApplyAll(w, l, blk.txs, blk.miner), blk);
  }

  // ----- Cancellations that took effect -----

  function ManualOf(d: Docs, tx: Tx): Amount {
    if tx.action.CancelSponsor? && HasExpiry(d, tx.action.hash) then ExpiryOf(d, tx.action.hash).manuallyCancelled else 0
  }

  lemma {:induction false} ReturnsFromTheFront(d: Docs, txs: seq<Tx>)
    requires txs != [] && CancelReturns(d, txs).Some?
    ensures CancelReturns(d, txs[1..]).Some?
    ensures Total(CancelReturns(d, txs).value) == ManualOf(d, txs[0]) + Total(CancelReturns(d, txs[1..]).value)
    ensures txs[0].action.CancelSponsor? ==> ManualOf(d, txs[0]) > 0
    decreases |txs|
  {
    var init, last := txs[..|txs| - 1], txs[|txs| - 1];
    var before := CancelReturns(d, init).value;
    if last.action.CancelSponsor? {
      TotalSet(before, last.action.sponsor, Lookup(before, last.action.sponsor) + ManualOf(d, last));
    }
    if |txs| == 1 {
      assert init == [] && txs[1..] == [];
    } else {
      ReturnsFromTheFront(d, init);
      assert txs[1..][..|txs| - 2] == init[1..] && txs[1..][|txs| - 2] == last;
      var middle := CancelReturns(d, init[1..]).value;
      if last.action.CancelSponsor? {
        TotalSet(middle, last.action.sponsor, Lookup(middle, last.action.sponsor) + ManualOf(d, last));
      }
    }
  }

  // The cancellation finds its sponsorship and takes the rest out of it.
  ghost predicate TookEffect(w: World, l: Ledger, tx: Tx) {
    tx.action.CancelSponsor? ==>
      && tx.action.uri in l.docs.books && Ok(l.docs.books[tx.action.uri])
      && tx.action.hash in CancelPays(l.docs.books[tx.action.uri], w.chain.Now(), tx.action.hash)
  }

  ghost predicate AllTookEffect(w: World, l: Ledger, txs: seq<Tx>, key: Address)
    requires AllApplied(w, l, txs, key)
    decreases |txs|
  {
    txs != [] ==>
      TookEffect(w, l, txs[0]) && AllTookEffect(w, ApplyTransaction(w, l, txs[0], key).ledger, txs[1..], key)
  }

  // Entries of cancelled sponsorships are not touched again.
  ghost predicate Settled(d: Docs, d': Docs) {
    forall h :: HasExpiry(d, h) && ExpiryOf(d, h).manuallyCancelled != 0 ==>
      HasExpiry(d', h) && ExpiryOf(d', h).manuallyCancelled == ExpiryOf(d, h).manuallyCancelled
  }

  lemma ManualSettles(d: Docs, hash: Hash, amount: Amount)
    requires HasExpiry(d, hash) && ExpiryOf(d, hash).manuallyCancelled == 0
    ensures var d' := WithManual(d, hash, amount);
            Settled(d, d') && HasExpiry(d', hash) && ExpiryOf(d', hash).manuallyCancelled == amount
  {}

  lemma CancelledDocsSettle(d: Docs, uri: Uri, t: int, hash: Hash, account: Address)
    requires uri in d.books && Ok(d.books[uri]) && hash in CancelPays(d.books[uri], t, hash) && account != ""
    requires HasExpiry(d, hash) && ExpiryOf(d, hash).manuallyCancelled == 0
    ensures var d' := CancelledDocs(d, uri, t, hash, account);
            && Settled(d, d') && HasExpiry(d', hash)
            && ExpiryOf(d', hash).manuallyCancelled == CancelPays(d.books[uri], t, hash)[hash].amount
  {
    var d1 := WithBook(d, uri, Cancelled(d.books[uri], t, hash, true));
    assert HasExpiry(d1, hash) && ExpiryOf(d1, hash) == ExpiryOf(d, hash);
    ManualSettles(d1, hash, CancelPays(d.books[uri], t, hash)[hash].amount);
  }

  lemma CancelAmount(b: Book, t: int, hash: Hash)
    requires Ok(b) && hash != ""
    ensures var pays := CancelPays(b, t, hash);
            Total(Amounts(pays)) == (if hash in pays then pays[hash].amount else 0) && (hash in pays ==> pays[hash].amount > 0)
  {
    CancelPaysOne(b, t, hash);
    var pays := CancelPays(b, t, hash);
    var none: map<Hash, Payment> := map[];
    EmptyAmounts();
    if hash in pays {
      AmountsGrow(none, hash, pays[hash]);
      assert pays == none[hash := pays[hash]];
    } else {
      assert pays == none;
    }
  }

  lemma CancelSettlesEntry(d: Docs, uri: Uri, t: int, hash: Hash, account: Address)
    requires hash != "" && account != "" && uri in d.books && Ok(d.books[uri])
    requires Cancelling(d, uri, t, Forward, hash, account, false).Done?
    ensures var d' := Cancelling(d, uri, t, Forward, hash, account, false).docs;
            var amount := Total(Amounts(CancelPays(d.books[uri], t, hash)));
            && Settled(d, d')
            && (hash in CancelPays(d.books[uri], t, hash) <==> amount > 0)
            && (amount > 0 ==> HasExpiry(d', hash) && ExpiryOf(d', hash).manuallyCancelled == amount)
  {
    CancelAmount(d.books[uri], t, hash);
    if hash in CancelPays(d.books[uri], t, hash) {
      ForwardDone(d, uri, t, hash, account);
      CancelledDocsSettle(d, uri, t, hash, account);
    }
  }

  lemma SponsorSettles(d: Docs, c: Chain, s: Sponsoring, hash: Hash)
    requires SponsorApply(d, c, s, hash).Some? && hash !in d.blockOf
    ensures Settled(d, SponsorApply(d, c, s, hash).value)
  {}

  lemma ActionSettles(w: World, l: Ledger, tx: Tx, chain: bool)
    requires Inv(w, l) && Validated(tx) && Unseen(l, tx) && Apply(w, l, tx, chain).Some?
    requires !tx.action.CancelSponsor?
    ensures Settled(l.docs, Apply(w, l, tx, chain).value.docs)
  {
    if tx.action.Sponsor? { SponsorSettles(l.docs, w.chain, tx.action.sponsoring, tx.hash); }
  }

  lemma CancelSettlesTransaction(w: World, l: Ledger, tx: Tx, chain: bool)
    requires Inv(w, l) && Validated(tx) && Apply(w, l, tx, chain).Some? && tx.action.CancelSponsor?
    ensures var d' := Apply(w, l, tx, chain).value.docs;
            && Settled(l.docs, d')
            && (TookEffect(w, l, tx) ==> ManualOf(d', tx) == Withdrawn(w, l, tx) > 0)
            && (!TookEffect(w, l, tx) ==> Withdrawn(w, l, tx) == 0)
  {
    var uri := tx.action.uri;
    if uri in l.docs.books {
      BooksOk(w, l, uri);
      assert w.chain.TimeOf(w.chain.length) == w.chain.Now();
      CancelSettlesEntry(l.docs, uri, w.chain.Now(), tx.action.hash, tx.action.sponsor);
    }
  }

  lemma TransactionSettles(w: World, l: Ledger, tx: Tx, key: Address)
    requires Inv(w, l) && Validated(tx) && Unseen(l, tx) && Ready(w, l, key != "")
    requires ApplyTransaction(w, l, tx, key).Applied?
    ensures var d' := ApplyTransaction(w, l, tx, key).ledger.docs;
            && Settled(l.docs, d')
            && (TookEffect(w, l, tx) ==> ManualOf(d', tx) == Withdrawn(w, l, tx))
            && (tx.action.CancelSponsor? && TookEffect(w, l, tx) ==> Withdrawn(w, l, tx) > 0)
            && (!TookEffect(w, l, tx) ==> Withdrawn(w, l, tx) == 0)
  {
    DocsAfter(w, l, tx, key);
    if tx.action.CancelSponsor? {
      CancelSettlesTransaction(w, l, tx, key != "");
    } else {
      ActionSettles(w, l, tx, key != "");
    }
  }

  lemma {:induction false} RunSettlesEntries(w: World, l: Ledger, txs: seq<Tx>, key: Address)
    requires AllApplied(w, l, txs, key)
    ensures Settled(l.docs, ApplyAll(w, l, txs, key).docs)
    decreases |txs|
  {
    if txs == [] {
    } else {
      TransactionSettles(w, l, txs[0], key);
      RunSettlesEntries(w, ApplyTransaction(w, l, txs[0], key).ledger, txs[1..], key);
    }
  }

  // What a block returns for cancellations is what they took out, exactly when all of them
  // took effect; otherwise it is more.
  lemma {:induction false} ReturnsMatchWithdrawals(w: World, l: Ledger, txs: seq<Tx>, key: Address)
    requires AllApplied(w, l, txs, key)
    requires CancelReturns(ApplyAll(w, l, txs, key).docs, txs).Some?
    ensures var returned := Total(CancelReturns(ApplyAll(w, l, txs, key).docs, txs).value);
            && returned >= WithdrawnAll(w, l, txs, key)
            && (returned == WithdrawnAll(w, l, txs, key) <==> AllTookEffect(w, l, txs, key))
    decreases |txs|
  {
    if txs == [] {
      TotalOfEmpty(CancelReturns(ApplyAll(w, l, txs, key).docs, txs).value);
    } else {
      var l1 := ApplyTransaction(w, l, txs[0], key).ledger;
      TransactionSettles(w, l, txs[0], key);
      RunSettlesEntries(w, l1, txs[1..], key);
      ReturnsFromTheFront(ApplyAll(w, l, txs, key).docs, txs);
      ReturnsMatchWithdrawals(w, l1, txs[1..], key);
    }
  }

  // Every viewed unit of the block is used after its last time point.
  ghost predicate Punctual(w: World, l: Ledger, blk: Block)
    requires Takes(w, l, blk)
  {
    forall u <- Viewed(w, blk) :: Late(ApplyAll(w, l, blk.txs, blk.miner).docs, w.chain.Now(), u)
  }

  predicate Late(d: Docs, t: int, uri: Uri) {
    uri in d.books ==> |d.books[uri].points| > 0 && t > d.books[uri].Last()
  }

  ghost predicate AllEffective(w: World, l: Ledger, blk: Block)
    requires Takes(w, l, blk)
  {
    AllTookEffect(w, l, blk.txs, blk.miner)
  }

  // Wealth grows by exactly the emission if and only if every cancellation in the block took
  // effect - as long as no viewed unit is used before its first time point.
  lemma BlockConserves(w: World, table: seq<Amount>, l: Ledger, blk: Block)
    requires Takes(w, l, blk) && ApplyBlock(w, table, l, blk).Some? && Punctual(w, l, blk)
    ensures Emission(table, w.chain.length).Some?
    ensures Wealth(ApplyBlock(w, table, l, blk).value) >= Wealth(l) + EmissionOf(table, w.chain.length)
    ensures Wealth(ApplyBlock(w, table, l, blk).value) == Wealth(l) + EmissionOf(table, w.chain.length)
            <==> AllEffective(w, l, blk)
  {
    BlockAccount(w, table, l, blk);
    ReturnsMatchWithdrawals(w, l, blk.txs, blk.miner);
    NothingLostByBlock(w, l, blk);
  }

  lemma NothingLostByBlock(w: World, l: Ledger, blk: Block)
    requires Takes(w, l, blk) && Punctual(w, l, blk)
    ensures LostByBlock(w, l, blk) == 0 && OrderlyBlock(w, l, blk)
  {
    var d := ApplyAll(w, l, blk.txs, blk.miner).docs;
    RevertAllUndoes(w, l, blk.txs, blk.miner);
    InvIsAllOk(w, ApplyAll(w, l, blk.txs, blk.miner));
    forall u | u in Viewed(w, blk) ensures Orderly(d, w.chain.Now(), u, w.sort) && (u in d.books ==> Ok(d.books[u]) && w.chain.Now() > d.books[u].Last()) {
      assert Late(d, w.chain.Now(), u);
    }
    NothingLost(d, w.chain.Now(), Viewed(w, blk));
  }

  // Reverting the block takes the same sum away again.
  lemma RevertConserves(w: World, table: seq<Amount>, l: Ledger, blk: Block)
    requires Takes(w, l, blk) && ApplyBlock(w, table, l, blk).Some? && Punctual(w, l, blk) && AllEffective(w, l, blk)
    ensures var l2 := ApplyBlock(w, table, l, blk).value;
            && RevertBlock(w, table, l2, blk).Some?
            && Wealth(RevertBlock(w, table, l2, blk).value) == Wealth(l2) - EmissionOf(table, w.chain.length)
  {
    NothingLostByBlock(w, l, blk);
    RevertBlockUndoes(w, table, l, blk);
    BlockConserves(w, table, l, blk);
  }

  // ----- Many blocks -----

  ghost function LostAt(p: Point, blk: Block): Amount {
    if Takes(p.world, p.ledger, blk) then LostByBlock(p.world, p.ledger, blk) else 0
  }

  ghost function WithdrawnAt(p: Point, blk: Block): Amount {
    if Takes(p.world, p.ledger, blk) then WithdrawnByBlock(p.world, p.ledger, blk) else 0
  }

  ghost function ReturnedAt(p: Point, blk: Block): Amount {
    if Takes(p.world, p.ledger, blk) then ReturnedByBlock(p.world, p.ledger, blk) else 0
  }

  function EmissionAt(table: seq<Amount>): (Point, Block) -> Amount {
    (p: Point, _: Block) => EmissionOf(table, p.world.chain.length)
  }

  // The emissions of `n` blocks from block `first` on.
  function Emissions(table: seq<Amount>, first: nat, n: nat): Amount {
    Runs.SumFrom((block: nat) => EmissionOf(table, block), first, n)
  }

  lemma EmissionsAlong(table: seq<Amount>, p: Point, blocks: seq<Block>)
    requires ApplyChain(table, p, blocks).Some?
    ensures Along(table, p, blocks, EmissionAt(table)) == Emissions(table, p.world.chain.length, |blocks|)
  {
    Runs.RunCounts(Accepting(table), (m: Point) => m.world.chain.length, EmissionAt(table),
                   (block: nat) => EmissionOf(table, block), p, blocks);
  }

  ghost function WealthAt(p: Point): Amount {
    Wealth(p.ledger)
  }

  lemma AccountOfOne(table: seq<Amount>, p: Point, blk: Block)
    requires Accepting(table)(p, blk).Some?
    ensures WealthAt(Accepting(table)(p, blk).value) + LostAt(p, blk) + WithdrawnAt(p, blk)
            == WealthAt(p) + EmissionAt(table)(p, blk) + ReturnedAt(p, blk)
  {
    BlockAccount(p.world, table, p.ledger, blk);
  }

  // The exact account of any chain of blocks.
  lemma ChainAccount(table: seq<Amount>, p: Point, blocks: seq<Block>)
    requires ApplyChain(table, p, blocks).Some?
    ensures Wealth(ApplyChain(table, p, blocks).value.ledger) + Along(table, p, blocks, LostAt) + Along(table, p, blocks, WithdrawnAt)
            == Wealth(p.ledger) + Emissions(table, p.world.chain.length, |blocks|) + Along(table, p, blocks, ReturnedAt)
  {
    EmissionsAlong(table, p, blocks);
    forall m, b | Accepting(table)(m, b).Some?
      ensures WealthAt(Accepting(table)(m, b).value) + LostAt(m, b) + WithdrawnAt(m, b)
              == WealthAt(m) + EmissionAt(table)(m, b) + ReturnedAt(m, b)
    {
      AccountOfOne(table, m, b);
    }
    Runs.RunBalances(Accepting(table), WealthAt, EmissionAt(table), ReturnedAt, LostAt, WithdrawnAt, p, blocks);
  }

  ghost predicate PunctualOne(p: Point, blk: Block) {
    Takes(p.world, p.ledger, blk) && Punctual(p.world, p.ledger, blk)
  }

  ghost predicate EffectiveOne(p: Point, blk: Block) {
    Takes(p.world, p.ledger, blk) && AllEffective(p.world, p.ledger, blk)
  }

  lemma OneConserves(table: seq<Amount>, p: Point, blk: Block)
    requires Accepting(table)(p, blk).Some? && PunctualOne(p, blk)
    ensures WealthAt(Accepting(table)(p, blk).value) >= WealthAt(p) + EmissionAt(table)(p, blk)
    ensures WealthAt(Accepting(table)(p, blk).value) == WealthAt(p) + EmissionAt(table)(p, blk) <==> EffectiveOne(p, blk)
  {
    BlockConserves(p.world, table, p.ledger, blk);
  }

  // Over any chain of blocks without an early use, balances and unpaid sponsorships grow by
  // exactly the emissions if and only if every cancellation in every block took effect.
  lemma ChainConserves(table: seq<Amount>, p: Point, blocks: seq<Block>)
    requires ApplyChain(table, p, blocks).Some? && Always(table, p, blocks, PunctualOne)
    ensures var grown, due := Wealth(ApplyChain(table, p, blocks).value.ledger),
                              Wealth(p.ledger) + Emissions(table, p.world.chain.length, |blocks|);
            grown >= due && (grown == due <==> Always(table, p, blocks, EffectiveOne))
  {
    EmissionsAlong(table, p, blocks);
    forall m, b | Accepting(table)(m, b).Some? && PunctualOne(m, b)
      ensures WealthAt(Accepting(table)(m, b).value) >= WealthAt(m) + EmissionAt(table)(m, b)
      ensures WealthAt(Accepting(table)(m, b).value) == WealthAt(m) + EmissionAt(table)(m, b) <==> EffectiveOne(m, b)
    {
      OneConserves(table, m, b);
    }
    Runs.RunGrows(Accepting(table), WealthAt, EmissionAt(table), PunctualOne, EffectiveOne, p, blocks);
  }
}
