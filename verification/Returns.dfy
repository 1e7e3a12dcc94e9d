/**
 To whom a block returns what its cancellations took back: to the account each of them names.
 That is the sponsor, as long as the cancellation takes effect.
 */
module Returns {
  import opened Basics
  import opened Sponsorship
  import opened Books
  import opened DocumentValues
  import opened BlockRewards
  import opened Transactions
  import opened Blocks
  import opened Conservation
  import opened Claims

  // Who made the sponsorship `h`.
  ghost function MadeBy(d: Docs, h: Hash): Option<Address> {
    if Booked(d, h) && Position(d.books[Home(d, h)], h).Some?
    then Some(d.books[Home(d, h)].items[Position(d.books[Home(d, h)], h).value].sponsor)
    else None
  }

  // What the transaction withdraws from a sponsorship that `a` made.
  ghost function WithdrawnFrom(w: World, l: Ledger, tx: Tx, a: Address): Amount {
    if tx.action.CancelSponsor? && MadeBy(l.docs, tx.action.hash) == Some(a) then Withdrawn(w, l, tx) else 0
  }

  ghost function WithdrawnFromAll(w: World, l: Ledger, txs: seq<Tx>, key: Address, a: Address): Amount
    requires AllApplied(w, l, txs, key)
    decreases |txs|
  {
    if txs == [] then 0
    else WithdrawnFrom(w, l, txs[0], a) + WithdrawnFromAll(w, ApplyTransaction(w, l, txs[0], key).ledger, txs[1..], key, a)
  }

  // What `a` is credited for a cancellation in which it is named.
  function Credited(d: Docs, tx: Tx, a: Address): Amount {
    if tx.action.CancelSponsor? && tx.action.sponsor == a then ManualOf(d, tx) else 0
  }

  function CreditedAll(d: Docs, txs: seq<Tx>, a: Address): Amount {
    if txs == [] then 0 else Credited(d, txs[0], a) + CreditedAll(d, txs[1..], a)
  }

  // The same for cancellations that take no effect.
  ghost function CreditedVainly(w: World, l: Ledger, txs: seq<Tx>, key: Address, d: Docs, a: Address): Amount
    requires AllApplied(w, l, txs, key)
    decreases |txs|
  {
    if txs == [] then 0
    else (if TookEffect(w, l, txs[0]) then 0 else Credited(d, txs[0], a))
         + CreditedVainly(w, ApplyTransaction(w, l, txs[0], key).ledger, txs[1..], key, d, a)
  }

  // ----- The list of returns, account by account -----

  lemma {:induction false} CreditedFromTheBack(d: Docs, txs: seq<Tx>, a: Address)
    requires txs != []
    ensures CreditedAll(d, txs, a) == CreditedAll(d, txs[..|txs| - 1], a) + Credited(d, txs[|txs| - 1], a)
  {
    if |txs| == 1 {
      assert txs[..0] == [] && txs[1..] == [];
    } else {
      CreditedFromTheBack(d, txs[1..], a);
      assert txs[1..][..|txs| - 2] == txs[..|txs| - 1][1..];
    }
  }

  lemma {:induction false} ReturnsAreCredits(d: Docs, txs: seq<Tx>, a: Address)
    requires CancelReturns(d, txs).Some?
    ensures Lookup(CancelReturns(d, txs).value, a) == CreditedAll(d, txs, a)
  {
    if txs == [] {
    } else {
      CreditedFromTheBack(d, txs, a);
      ReturnsAreCredits(d, txs[..|txs| - 1], a);
    }
  }

  // ----- Cancellations that take effect name the sponsor -----

  lemma FoundIsOwn(d: Docs, uri: Uri, t: int, hash: Hash, account: Address)
    requires OkEntries(d) && uri in d.books && Ok(d.books[uri]) && account != "" && hash in CancelPays(d.books[uri], t, hash)
    requires Cancelling(d, uri, t, Forward, hash, account, false).Done?
    ensures MadeBy(d, hash) == Some(account)
  {
    var b := d.books[uri];
    var k := FindItem(b, t, hash);
    ForwardDone(d, uri, t, hash, account);
    PositionIs(b, hash, k);
    OnlyAtHome(d, uri, hash);
  }

  lemma EffectNamesSponsor(w: World, l: Ledger, tx: Tx, key: Address)
    requires Inv(w, l) && Validated(tx) && Unseen(l, tx) && Ready(w, l, key != "")
    requires ApplyTransaction(w, l, tx, key).Applied? && tx.action.CancelSponsor? && TookEffect(w, l, tx)
    ensures MadeBy(l.docs, tx.action.hash) == Some(tx.action.sponsor)
  {
    assert w.chain.TimeOf(w.chain.length) == w.chain.Now();
    FoundIsOwn(l.docs, tx.action.uri, w.chain.Now(), tx.action.hash, tx.action.sponsor);
  }

  lemma OneReturn(w: World, l: Ledger, tx: Tx, key: Address, d: Docs, a: Address)
    requires Inv(w, l) && Validated(tx) && Unseen(l, tx) && Ready(w, l, key != "")
    requires ApplyTransaction(w, l, tx, key).Applied? && Settled(ApplyTransaction(w, l, tx, key).ledger.docs, d)
    ensures Credited(d, tx, a) == WithdrawnFrom(w, l, tx, a) + if TookEffect(w, l, tx) then 0 else Credited(d, tx, a)
  {
    TransactionSettles(w, l, tx, key);
    if tx.action.CancelSponsor? && TookEffect(w, l, tx) { EffectNamesSponsor(w, l, tx, key); }
  }

  // Every account is credited what was withdrawn from its own sponsorships, and besides the
  // amount of the entry for each cancellation without effect that names it.
  lemma {:induction false} CreditsSplit(w: World, l: Ledger, txs: seq<Tx>, key: Address, a: Address)
    requires AllApplied(w, l, txs, key)
    ensures var d := ApplyAll(w, l, txs, key).docs;
            CreditedAll(d, txs, a) == WithdrawnFromAll(w, l, txs, key, a) + CreditedVainly(w, l, txs, key, d, a)
    decreases |txs|
  {
    if txs == [] {
    } else {
      var l1 := ApplyTransaction(w, l, txs[0], key).ledger;
      RunSettlesEntries(w, l1, txs[1..], key);
      OneReturn(w, l, txs[0], key, ApplyAll(w, l, txs, key).docs, a);
      CreditsSplit(w, l1, txs[1..], key, a);
    }
  }

  // An account that is credited in vain, if there is a cancellation without effect.
  lemma {:induction false} SomeoneCredited(w: World, l: Ledger, txs: seq<Tx>, key: Address, d: Docs) returns (a: Address)
    requires AllApplied(w, l, txs, key) && CancelReturns(d, txs).Some?
    ensures !AllTookEffect(w, l, txs, key) ==> CreditedVainly(w, l, txs, key, d, a) > 0
    decreases |txs|
  {
    a := "";
    if txs == [] {
    } else {
      ReturnsFromTheFront(d, txs);
      if TookEffect(w, l, txs[0]) {
        a := SomeoneCredited(w, ApplyTransaction(w, l, txs[0], key).ledger, txs[1..], key, d);
      } else {
        a := txs[0].action.sponsor;
      }
    }
  }

  lemma {:induction false} NoneCredited(w: World, l: Ledger, txs: seq<Tx>, key: Address, d: Docs, a: Address)
    requires AllApplied(w, l, txs, key) && AllTookEffect(w, l, txs, key)
    ensures CreditedVainly(w, l, txs, key, d, a) == 0
    decreases |txs|
  {
    if txs == [] {
    } else {
      NoneCredited(w, ApplyTransaction(w, l, txs[0], key).ledger, txs[1..], key, d, a);
    }
  }

  // ----- Blocks -----

  ghost function ReturnedTo(w: World, l: Ledger, blk: Block, a: Address): Amount
    requires Takes(w, l, blk)
  {
    var back := CancelReturns(ApplyAll(w, l, blk.txs, blk.miner).docs, blk.txs);
    if back.Some? then Lookup(back.value, a) else 0
  }

  ghost function OwnWithdrawn(w: World, l: Ledger, blk: Block, a: Address): Amount
    requires Takes(w, l, blk)
  {
    WithdrawnFromAll(w, l, blk.txs, blk.miner, a)
  }

  // An accepted block returns to every account exactly what it withdrew from the account's own
  // sponsorships if and only if every cancellation took effect; otherwise it returns no less.
  lemma ReturnsGoToSponsors(w: World, table: seq<Amount>, l: Ledger, blk: Block)
    requires Takes(w, l, blk) && ApplyBlock(w, table, l, blk).Some?
    ensures forall a :: ReturnedTo(w, l, blk, a) >= OwnWithdrawn(w, l, blk, a)
    ensures (forall a :: ReturnedTo(w, l, blk, a) == OwnWithdrawn(w, l, blk, a)) <==> AllEffective(w, l, blk)
  {
    var d := ApplyAll(w, l, blk.txs, blk.miner).docs;
    BlockAccount(w, table, l, blk);
    forall a
      ensures ReturnedTo(w, l, blk, a) == OwnWithdrawn(w, l, blk, a) + CreditedVainly(w, l, blk.txs, blk.miner, d, a)
      ensures AllEffective(w, l, blk) ==> CreditedVainly(w, l, blk.txs, blk.miner, d, a) == 0
    {
      ReturnsAreCredits(d, blk.txs, a);
      CreditsSplit(w, l, blk.txs, blk.miner, a);
      if AllEffective(w, l, blk) { NoneCredited(w, l, blk.txs, blk.miner, d, a); }
    }
    var a := SomeoneCredited(w, l, blk.txs, blk.miner, d);
    assert ReturnedTo(w, l, blk, a) == OwnWithdrawn(w, l, blk, a) + CreditedVainly(w, l, blk.txs, blk.miner, d, a);
  }
}
