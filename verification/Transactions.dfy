/**
 Applying and reverting transactions on the whole ledger: balances, sponsorships, holders
 of files and authorizations.
 */
module Transactions {
  import opened Basics
  import opened DocumentValues
  import Balances
  import Books
  import Sponsorship
  import SponsorIndex
  import Services
  import Authority
  import Authorization
  import Statistics

  datatype Ledger = Ledger(state: Balances.State, docs: Docs, rights: Authority.Store)

  // What does not change while transactions are processed; `sort` is that of the library.
  datatype World = World(chain: Chain, node: Address, registry: Statistics.Registry, storages: set<Address>, roles: Services.Roles, sort: SponsorIndex.Sort)

  datatype Action =
    | Transfer(from: Address, to: Address, amount: Amount)
    | Sponsor(sponsoring: Sponsoring)
    | CancelSponsor(sponsor: Address, uri: Uri, hash: Hash)
    | UpdateStorage(storage: Address, file: Uri, store: bool)
    | UpdateAuthority(update: Authorization.Update)

  datatype Tx = Tx(action: Action, signer: Address, fee: Amount, hash: Hash)

  function Owner(a: Action): Address {
    match a
    case Transfer(from, _, _) => from
    case Sponsor(s) => s.sponsor
    case CancelSponsor(sponsor, _, _) => sponsor
    case UpdateStorage(storage, _, _) => storage
    case UpdateAuthority(u) => u.owner
  }

  function ActionId(a: Action): nat {
    match a
    case UpdateAuthority(_) => Authorization.UPDATE_ID
    case Transfer(_, _, _) => 2
    case Sponsor(_) => 3
    case CancelSponsor(_, _, _) => 4
    case UpdateStorage(_, _, _) => 5
  }

  // What validation has made sure of before a transaction is applied.
  predicate Validated(tx: Tx) {
    && tx.hash != ""
    && match tx.action
       case Transfer(from, to, amount) => from != to && amount != 0
       case Sponsor(s) => s.hours > 0
       case CancelSponsor(sponsor, _, hash) => sponsor != "" && hash != ""
       case _ => true
  }

  // A transaction is used once.
  predicate Unseen(l: Ledger, tx: Tx) {
    tx.action.Sponsor? ==> tx.hash !in l.docs.blockOf
  }

  ghost predicate Inv(w: World, l: Ledger) {
    && Balances.OkState(l.state, w.node)
    && OkDocs(l.docs, w.chain.Now()) && InTime(l.docs, w.chain)
    && Authority.Normal(l.rights)
  }

  // On the chain layer the node starts from a synchronised mirror of its own balance.
  predicate Ready(w: World, l: Ledger, chain: bool) {
    chain ==> Balances.Synced(l.state, w.node)
  }

  predicate Signed(l: Ledger, tx: Tx) {
    && Authority.RecordOf(l.rights, Owner(tx.action), tx.signer).Some?
    && Authority.Check(l.rights, Owner(tx.action), tx.signer, ActionId(tx.action))
  }

  function Balance(l: Ledger, a: Address): Amount {
    Lookup(l.state.accounts, a)
  }

  lemma BooksOk(w: World, l: Ledger, uri: Uri)
    requires Inv(w, l) && uri in l.docs.books
    ensures Sponsorship.Ok(l.docs.books[uri]) && Sponsorship.Fresh(l.docs.books[uri], w.chain.Now())
  {
    assert OkBook(l.docs, w.chain.Now(), uri);
  }

  // ----- One action -----

  function CanApply(w: World, l: Ledger, tx: Tx): bool
    requires Inv(w, l)
  {
    Signed(l, tx) &&
    match tx.action
    case Transfer(from, _, amount) => Balance(l, from) >= amount
    case Sponsor(s) => s.uri in w.registry.units && Balance(l, s.sponsor) >= s.amount
    case CancelSponsor(sponsor, uri, hash) =>
      if uri in l.docs.books then
        BooksOk(w, l, uri);
        uri in w.registry.units && SetUsedAt(l.docs, w.chain, uri, w.chain.length, Forward, hash, sponsor, true).Done?
      else uri in w.registry.units
    case UpdateStorage(storage, file, store) => storage in w.storages && file in w.registry.authors && Holds(l.docs, file, storage) == !store
    case UpdateAuthority(u) => Authorization.CanApply(l.rights, u)
  }

  // The book a cancellation is about is well formed.
  predicate Revertable(l: Ledger, tx: Tx) {
    tx.action.CancelSponsor? && tx.action.uri in l.docs.books ==> Sponsorship.Ok(l.docs.books[tx.action.uri])
  }

  lemma InvReverts(w: World, l: Ledger, tx: Tx)
    requires Inv(w, l)
    ensures Revertable(l, tx)
  {
    if tx.action.CancelSponsor? && tx.action.uri in l.docs.books { BooksOk(w, l, tx.action.uri); }
  }

  // A signed action other than an authorization update; None where the code throws.
  function Carried(w: World, l: Ledger, tx: Tx, chain: bool): Option<Ledger>
    requires Revertable(l, tx) && !tx.action.UpdateAuthority?
  {
    match tx.action
    case Transfer(from, to, amount) => WithState(l, Balances.Move(l.state, w.node, from, to, amount, chain))
    case Sponsor(s) =>
      if s.uri !in w.registry.units then None
      else
        var paid := Balances.Decrease(l.state, w.node, s.sponsor, s.amount, chain);
        var docs := SponsorApply(l.docs, w.chain, s, tx.hash);
        if paid.None? || docs.None? then None else Some(Ledger(paid.value, docs.value, l.rights))
    case CancelSponsor(sponsor, uri, hash) =>
      if uri !in w.registry.units then None
      else WithDocs(l, SetUsedAt(l.docs, w.chain, uri, w.chain.length, Forward, hash, sponsor, false))
    case UpdateStorage(storage, file, store) =>
      if storage !in w.storages || file !in w.registry.authors || Holds(l.docs, file, storage) == store then None
      else Some(l.(docs := StorageUpdated(l.docs, file, storage, store)))
  }

  // None where the code throws.
  function Apply(w: World, l: Ledger, tx: Tx, chain: bool): Option<Ledger>
    requires Inv(w, l)
  {
    if !Signed(l, tx) then None
    else if tx.action.UpdateAuthority? then
      var rights := Authorization.Apply(l.rights, tx.action.update);
      if rights.None? then None else Some(l.(rights := rights.value))
    else
      InvReverts(w, l, tx);
      Carried(w, l, tx, chain)
  }

  function WithState(l: Ledger, s: Option<Balances.State>): Option<Ledger> {
    if s.None? then None else Some(l.(state := s.value))
  }

  function WithDocs(l: Ledger, r: SetUsed): Option<Ledger> {
    if r.Failed? then None else Some(l.(docs := r.docs))
  }

  // Undoing an action other than an authorization update, before the signature is checked.
  function Undone(w: World, l: Ledger, tx: Tx, chain: bool): Option<Ledger>
    requires Revertable(l, tx) && !tx.action.UpdateAuthority?
  {
    match tx.action
    case Transfer(from, to, amount) => WithState(l, Balances.Move(l.state, w.node, to, from, amount, chain))
    case Sponsor(s) =>
      var docs := SponsorRevert(l.docs, w.chain, s, tx.hash);
      if docs.None? then None
      else Some(Ledger(Balances.Increase(l.state, w.node, s.sponsor, s.amount, chain), docs.value, l.rights))
    case CancelSponsor(sponsor, uri, hash) =>
      WithDocs(l, SetUsedAt(l.docs, w.chain, uri, w.chain.length, Backward(w.sort), hash, sponsor, false))
    case UpdateStorage(storage, file, store) => Some(l.(docs := StorageUpdated(l.docs, file, storage, !store)))
  }

  // Undoing an action; the signature is checked again at the end.
  function Revert(w: World, l: Ledger, tx: Tx, chain: bool): Option<Ledger>
    requires Revertable(l, tx)
  {
    if tx.action.UpdateAuthority? then
      var rights := Authorization.Revert(l.rights, tx.action.update);
      if rights.None? then None else Some(l.(rights := rights.value))
    else IfSigned(Undone(w, l, tx, chain), tx)
  }

  function IfSigned(l: Option<Ledger>, tx: Tx): Option<Ledger> {
    if l.Some? && Signed(l.value, tx) then l else None
  }

  // ----- One action and its undoing -----

  lemma SignedIsKnown(w: World, l: Ledger, tx: Tx)
    requires Inv(w, l)
    ensures Authority.RecordOf(l.rights, Owner(tx.action), tx.signer).Some?
  {
    Authority.NormalHasRecords(l.rights, Owner(tx.action), tx.signer);
  }

  // The one gap between asking and applying: a cancellation by the wrong account, or of a
  // sponsorship already cancelled.
  predicate WrongCancel(w: World, l: Ledger, tx: Tx)
    requires Inv(w, l)
  {
    && tx.action.CancelSponsor? && tx.action.uri in l.docs.books
    && (BooksOk(w, l, tx.action.uri);
        var b := l.docs.books[tx.action.uri];
        var pays := Books.CancelPays(b, w.chain.Now(), tx.action.hash);
        && tx.action.hash in pays
        && (pays[tx.action.hash].sponsor != tx.action.sponsor || IsCancelled(b, tx.action.hash)))
  }

  // Whatever may be applied is applied, except for a wrong cancellation.
  lemma CanApplyMeansApplies(w: World, l: Ledger, tx: Tx, chain: bool)
    requires Inv(w, l) && Validated(tx) && Ready(w, l, chain)
    ensures Apply(w, l, tx, chain).Some? <==> CanApply(w, l, tx) && !WrongCancel(w, l, tx)
  {
    match tx.action
    case Transfer(from, to, amount) =>
      Balances.IncreaseKeeps(l.state, w.node, to, amount, chain);
      Balances.DecreaseKeeps(Balances.Increase(l.state, w.node, to, amount, chain), w.node, from, amount, chain);
    case Sponsor(s) =>
    case CancelSponsor(sponsor, uri, hash) =>
      if uri in l.docs.books {
        BooksOk(w, l, uri);
        TrialVersusReal(l.docs, w.chain.Now(), uri, w.chain.Now(), hash, sponsor);
      }
    case UpdateStorage(_, _, _) =>
    case UpdateAuthority(u) => Authorization.ApplyThenRevert(l.rights, u);
  }

  lemma ApplyKeepsInv(w: World, l: Ledger, tx: Tx, chain: bool)
    requires Inv(w, l) && Validated(tx) && Unseen(l, tx) && Ready(w, l, chain)
    requires CanApply(w, l, tx) && Apply(w, l, tx, chain).Some?
    ensures Inv(w, Apply(w, l, tx, chain).value) && Ready(w, Apply(w, l, tx, chain).value, chain)
  {
    match tx.action
    case Transfer(from, to, amount) => Balances.MoveKeeps(l.state, w.node, from, to, amount, chain);
    case Sponsor(s) =>
      Balances.DecreaseKeeps(l.state, w.node, s.sponsor, s.amount, chain);
      SponsorKeepsOk(l.docs, w.chain.Now(), w.chain, s, tx.hash);
      SponsorKeepsTime(l.docs, w.chain, s, tx.hash);
    case CancelSponsor(sponsor, uri, hash) =>
      if uri in l.docs.books {
        BooksOk(w, l, uri);
        CancelKeepsOk(l.docs, w.chain.Now(), uri, w.chain.Now(), hash, sponsor);
        CancelKeepsTime(l.docs, w.chain, uri, w.chain.Now(), hash, sponsor);
      }
    case UpdateStorage(storage, file, store) =>
      StorageUndone(l.docs, w.chain.Now(), file, storage, store);
      InTimeFrame(l.docs, StorageUpdated(l.docs, file, storage, store), w.chain);
    case UpdateAuthority(u) => Authorization.ApplyThenRevert(l.rights, u);
  }

  lemma UncancelUndoes(w: World, l: Ledger, tx: Tx, chain: bool)
    requires Inv(w, l) && Validated(tx) && tx.action.CancelSponsor?
    requires CanApply(w, l, tx) && Apply(w, l, tx, chain).Some? && Revertable(Apply(w, l, tx, chain).value, tx)
    ensures Revert(w, Apply(w, l, tx, chain).value, tx, chain) == Some(l)
  {
    var uri, t := tx.action.uri, w.chain.Now();
    if uri in l.docs.books {
      BooksOk(w, l, uri);
      assert w.chain.TimeOf(w.chain.length) == t;
      CancelBackwardRestores(l.docs, uri, t, tx.action.hash, tx.action.sponsor, w.sort);
    }
  }

  // Undoing an action that was just applied gives the very same ledger back: both balance
  // tables, books, expirations, holders and authorizations.
  lemma RevertUndoesApply(w: World, l: Ledger, tx: Tx, chain: bool)
    requires Inv(w, l) && Validated(tx) && Unseen(l, tx) && Ready(w, l, chain)
    requires CanApply(w, l, tx) && Apply(w, l, tx, chain).Some?
    ensures Revertable(Apply(w, l, tx, chain).value, tx)
    ensures Revert(w, Apply(w, l, tx, chain).value, tx, chain) == Some(l)
  {
    ApplyKeepsInv(w, l, tx, chain);
    InvReverts(w, Apply(w, l, tx, chain).value, tx);
    match tx.action
    case Transfer(from, to, amount) => Balances.MoveIsUndone(l.state, w.node, from, to, amount, chain);
    case Sponsor(s) =>
      Balances.IncreaseUndoesDecrease(l.state, w.node, s.sponsor, s.amount, chain);
      SponsorRevertRestores(l.docs, w.chain.Now(), w.chain, s, tx.hash);
    case CancelSponsor(_, _, _) => UncancelUndoes(w, l, tx, chain);
    case UpdateStorage(storage, file, store) => StorageUndone(l.docs, w.chain.Now(), file, storage, store);
    case UpdateAuthority(u) => Authorization.ApplyThenRevert(l.rights, u);
  }

  // ----- Transactions: the action and the fee -----

  datatype Outcome = Applied(ledger: Ledger) | Refused(ledger: Ledger) | Threw

  // The fee, after the action; without the means for it the action is undone again.
  function Charged(w: World, l1: Ledger, tx: Tx, key: Address): Outcome
    requires Revertable(l1, tx)
  {
    if Balance(l1, Owner(tx.action)) < tx.fee then
      var l2 := Revert(w, l1, tx, key != "");
      if l2.None? then Threw else Refused(l2.value)
    else if key == "" then Applied(l1)
    else
      var s := Balances.Move(l1.state, w.node, Owner(tx.action), key, tx.fee, true);
      if s.None? then Threw else Applied(l1.(state := s.value))
  }

  lemma ChargedKeepsDocs(w: World, l1: Ledger, tx: Tx, key: Address)
    requires Revertable(l1, tx) && Charged(w, l1, tx, key).Applied?
    ensures Charged(w, l1, tx, key).ledger.docs == l1.docs
  {}

  // `key` is the block's miner, or empty for the pool, where no fee is taken.
  function ApplyTransaction(w: World, l: Ledger, tx: Tx, key: Address): Outcome
    requires Inv(w, l) && Validated(tx) && Unseen(l, tx) && Ready(w, l, key != "")
  {
    if !CanApply(w, l, tx) then Refused(l)
    else
      var l1 := Apply(w, l, tx, key != "");
      if l1.None? then Threw
      else
        ApplyKeepsInv(w, l, tx, key != "");
        InvReverts(w, l1.value, tx);
        Charged(w, l1.value, tx, key)
  }

  function RevertTransaction(w: World, l: Ledger, tx: Tx, key: Address): Option<Ledger>
    requires Revertable(l, tx)
  {
    if key == "" then Revert(w, l, tx, false)
    else
      var s := Balances.MoveBack(l.state, w.node, Owner(tx.action), key, tx.fee, true);
      if s.None? then None else Revert(w, l.(state := s.value), tx, true)
  }

  // A refused transaction leaves no trace; only a wrong cancellation throws.
  lemma RefusedLeavesNoTrace(w: World, l: Ledger, tx: Tx, key: Address)
    requires Inv(w, l) && Validated(tx) && Unseen(l, tx) && Ready(w, l, key != "")
    ensures var r := ApplyTransaction(w, l, tx, key);
            && (r.Refused? ==> r.ledger == l)
            && (r.Threw? <==> CanApply(w, l, tx) && WrongCancel(w, l, tx))
  {
    CanApplyMeansApplies(w, l, tx, key != "");
    if CanApply(w, l, tx) && !WrongCancel(w, l, tx) {
      RevertUndoesApply(w, l, tx, key != "");
      ApplyKeepsInv(w, l, tx, key != "");
      var l1 := Apply(w, l, tx, key != "").value;
      if Balance(l1, Owner(tx.action)) >= tx.fee && key != "" {
        Balances.MoveKeeps(l1.state, w.node, Owner(tx.action), key, tx.fee, true);
      }
    }
  }

  lemma TransactionKeepsInv(w: World, l: Ledger, tx: Tx, key: Address)
    requires Inv(w, l) && Validated(tx) && Unseen(l, tx) && Ready(w, l, key != "")
    requires ApplyTransaction(w, l, tx, key).Applied?
    ensures Inv(w, ApplyTransaction(w, l, tx, key).ledger) && Ready(w, ApplyTransaction(w, l, tx, key).ledger, key != "")
  {
    ApplyKeepsInv(w, l, tx, key != "");
    var l1 := Apply(w, l, tx, key != "").value;
    if key != "" { Balances.MoveKeeps(l1.state, w.node, Owner(tx.action), key, tx.fee, true); }
  }

  // Reverting a transaction undoes fee and action.
  lemma RevertTransactionUndoes(w: World, l: Ledger, tx: Tx, key: Address)
    requires Inv(w, l) && Validated(tx) && Unseen(l, tx) && Ready(w, l, key != "")
    requires ApplyTransaction(w, l, tx, key).Applied?
    ensures var l' := ApplyTransaction(w, l, tx, key).ledger;
            && Inv(w, l')
            && Revertable(l', tx)
            && RevertTransaction(w, l', tx, key) == Some(l)
  {
    TransactionKeepsInv(w, l, tx, key);
    RevertUndoesApply(w, l, tx, key != "");
    ApplyKeepsInv(w, l, tx, key != "");
    var l1 := Apply(w, l, tx, key != "").value;
    var l' := ApplyTransaction(w, l, tx, key).ledger;
    InvReverts(w, l', tx);
    if key != "" { Balances.MoveIsUndone(l1.state, w.node, Owner(tx.action), key, tx.fee, true); }
  }

  // ----- Sequences of transactions -----

  // Every transaction of the sequence is validated, unseen and applied when its turn comes.
  ghost predicate AllApplied(w: World, l: Ledger, txs: seq<Tx>, key: Address)
    decreases |txs|
  {
    && Inv(w, l) && Ready(w, l, key != "")
    && (txs == [] ||
        (&& Validated(txs[0]) && Unseen(l, txs[0])
         && ApplyTransaction(w, l, txs[0], key).Applied?
         && AllApplied(w, ApplyTransaction(w, l, txs[0], key).ledger, txs[1..], key)))
  }

  function ApplyAll(w: World, l: Ledger, txs: seq<Tx>, key: Address): Ledger
    requires AllApplied(w, l, txs, key)
    decreases |txs|
  {
    if txs == [] then l else ApplyAll(w, ApplyTransaction(w, l, txs[0], key).ledger, txs[1..], key)
  }

  // Reverting from the last to the first; None as soon as one step throws.
  function RevertAll(w: World, l: Ledger, txs: seq<Tx>, key: Address): Option<Ledger> {
    if txs == [] then Some(l)
    else
      var l1 := RevertAll(w, l, txs[1..], key);
      if l1.None? then None
      else if !Revertable(l1.value, txs[0]) then None
      else RevertTransaction(w, l1.value, txs[0], key)
  }

  // Any sequence of applied transactions can be reverted, and that restores everything.
  lemma {:induction false} RevertAllUndoes(w: World, l: Ledger, txs: seq<Tx>, key: Address)
    requires AllApplied(w, l, txs, key)
    ensures Inv(w, ApplyAll(w, l, txs, key)) && Ready(w, ApplyAll(w, l, txs, key), key != "")
    ensures RevertAll(w, ApplyAll(w, l, txs, key), txs, key) == Some(l)
    decreases |txs|
  {
    if txs == [] {
    } else {
      TransactionKeepsInv(w, l, txs[0], key);
      RevertTransactionUndoes(w, l, txs[0], key);
      RevertAllUndoes(w, ApplyTransaction(w, l, txs[0], key).ledger, txs[1..], key);
    }
  }

  // ----- The same from the last transaction -----

  lemma {:induction false} PrefixApplied(w: World, l: Ledger, txs: seq<Tx>, n: nat, key: Address)
    requires AllApplied(w, l, txs, key) && n <= |txs|
    ensures AllApplied(w, l, txs[..n], key)
    decreases n
  {
    if n == 0 {
    } else {
      assert txs[..n][1..] == txs[1..][..n - 1];
      PrefixApplied(w, ApplyTransaction(w, l, txs[0], key).ledger, txs[1..], n - 1, key);
    }
  }

  lemma {:induction false} AppliedFromTheBack(w: World, l: Ledger, init: seq<Tx>, last: Tx, key: Address)
    requires AllApplied(w, l, init, key)
    ensures Inv(w, ApplyAll(w, l, init, key)) && Ready(w, ApplyAll(w, l, init, key), key != "")
    ensures var m := ApplyAll(w, l, init, key);
            (AllApplied(w, l, init + [last], key) <==>
             Validated(last) && Unseen(m, last) && ApplyTransaction(w, m, last, key).Applied?)
    ensures AllApplied(w, l, init + [last], key) ==>
            ApplyAll(w, l, init + [last], key) == ApplyTransaction(w, ApplyAll(w, l, init, key), last, key).ledger
    decreases |init|
  {
    var all := init + [last];
    if init == [] {
      assert all == [last] && all[1..] == [];
      if Validated(last) && Unseen(l, last) && ApplyTransaction(w, l, last, key).Applied? {
        TransactionKeepsInv(w, l, last, key);
      }
    } else {
      assert all[0] == init[0] && all[1..] == init[1..] + [last];
      AppliedFromTheBack(w, ApplyTransaction(w, l, init[0], key).ledger, init[1..], last, key);
    }
  }

  // The last transaction is the first to be undone.
  lemma LastApplied(w: World, l: Ledger, init: seq<Tx>, last: Tx, key: Address)
    requires AllApplied(w, l, init + [last], key)
    ensures AllApplied(w, l, init, key) && Validated(last)
    ensures var after := ApplyAll(w, l, init + [last], key);
            && Inv(w, after) && Revertable(after, last)
            && RevertTransaction(w, after, last, key) == Some(ApplyAll(w, l, init, key))
  {
    assert (init + [last])[..|init|] == init;
    PrefixApplied(w, l, init + [last], |init|, key);
    AppliedFromTheBack(w, l, init, last, key);
    RevertTransactionUndoes(w, ApplyAll(w, l, init, key), last, key);
  }

  // Hashes of transactions differ, and none is known yet.
  ghost predicate AllNew(l: Ledger, txs: seq<Tx>) {
    && (forall i :: 0 <= i < |txs| ==> Validated(txs[i]) && txs[i].hash !in l.docs.blockOf)
    && forall i, j :: 0 <= i < j < |txs| ==> txs[i].hash != txs[j].hash
  }

  lemma NextIsNew(w: World, l: Ledger, txs: seq<Tx>, i: nat, key: Address)
    requires i < |txs| && AllNew(l, txs) && AllApplied(w, l, txs[..i], key)
    ensures Validated(txs[i]) && Unseen(ApplyAll(w, l, txs[..i], key), txs[i])
  {
    assert txs[..i] + txs[i..] == txs;
    StaysNew(w, l, txs[..i], txs[i..], key);
    assert txs[i] == txs[i..][0];
  }

  lemma NextApplies(w: World, l: Ledger, txs: seq<Tx>, i: nat, key: Address)
    requires i < |txs| && AllApplied(w, l, txs[..i], key)
    requires Validated(txs[i]) && Unseen(ApplyAll(w, l, txs[..i], key), txs[i])
    ensures var m := ApplyAll(w, l, txs[..i], key);
            && Inv(w, m) && Ready(w, m, key != "")
            && (ApplyTransaction(w, m, txs[i], key).Applied? ==>
                  && AllApplied(w, l, txs[..i + 1], key)
                  && ApplyAll(w, l, txs[..i + 1], key) == ApplyTransaction(w, m, txs[i], key).ledger)
            && (!ApplyTransaction(w, m, txs[i], key).Applied? ==> !AllApplied(w, l, txs, key))
  {
    LastOfPrefix(txs, i);
    AppliedFromTheBack(w, l, txs[..i], txs[i], key);
    if AllApplied(w, l, txs, key) { PrefixApplied(w, l, txs, i + 1, key); }
  }

  lemma LastOfPrefix<T>(s: seq<T>, n: nat)
    requires n < |s|
    ensures s[..n + 1] == s[..n] + [s[n]]
  {}

  // The documents after a transaction are those after its action; fees do not touch them.
  lemma DocsAfter(w: World, l: Ledger, tx: Tx, key: Address)
    requires Inv(w, l) && Validated(tx) && Unseen(l, tx) && Ready(w, l, key != "")
    requires ApplyTransaction(w, l, tx, key).Applied?
    ensures Apply(w, l, tx, key != "").Some?
    ensures ApplyTransaction(w, l, tx, key).ledger.docs == Apply(w, l, tx, key != "").value.docs
  {
    ApplyKeepsInv(w, l, tx, key != "");
    InvReverts(w, Apply(w, l, tx, key != "").value, tx);
    ChargedKeepsDocs(w, Apply(w, l, tx, key != "").value, tx, key);
  }

  lemma ManualKeepsBlocks(d: Docs, uri: Uri, t: int, hash: Hash, account: Address)
    requires uri in d.books && Sponsorship.Ok(d.books[uri])
    requires Cancelling(d, uri, t, Forward, hash, account, false).Done?
    ensures Cancelling(d, uri, t, Forward, hash, account, false).docs.blockOf == d.blockOf
  {}

  lemma ActionHashes(w: World, l: Ledger, tx: Tx, chain: bool)
    requires Inv(w, l) && Validated(tx) && Apply(w, l, tx, chain).Some?
    ensures Apply(w, l, tx, chain).value.docs.blockOf.Keys <= l.docs.blockOf.Keys + {tx.hash}
  {
    if tx.action.CancelSponsor? && tx.action.uri in l.docs.books {
      BooksOk(w, l, tx.action.uri);
      ManualKeepsBlocks(l.docs, tx.action.uri, w.chain.Now(), tx.action.hash, tx.action.sponsor);
    }
  }

  lemma NewHashes(w: World, l: Ledger, tx: Tx, key: Address)
    requires Inv(w, l) && Validated(tx) && Unseen(l, tx) && Ready(w, l, key != "")
    requires ApplyTransaction(w, l, tx, key).Applied?
    ensures ApplyTransaction(w, l, tx, key).ledger.docs.blockOf.Keys <= l.docs.blockOf.Keys + {tx.hash}
  {
    DocsAfter(w, l, tx, key);
    ActionHashes(w, l, tx, key != "");
  }

  // Transactions kept apart from those applied are as new as before.
  lemma NewBeside(w: World, l: Ledger, tx: Tx, rest: seq<Tx>, key: Address)
    requires Inv(w, l) && Validated(tx) && Unseen(l, tx) && Ready(w, l, key != "")
    requires AllNew(l, [tx] + rest) && ApplyTransaction(w, l, tx, key).Applied?
    ensures AllNew(ApplyTransaction(w, l, tx, key).ledger, rest)
  {
    NewHashes(w, l, tx, key);
    NewTail(l, ApplyTransaction(w, l, tx, key).ledger, tx, rest);
  }

  lemma NewTail(l: Ledger, l': Ledger, tx: Tx, rest: seq<Tx>)
    requires AllNew(l, [tx] + rest) && l'.docs.blockOf.Keys <= l.docs.blockOf.Keys + {tx.hash}
    ensures AllNew(l', rest)
  {
    var all := [tx] + rest;
    forall i | 0 <= i < |rest| ensures Validated(rest[i]) && rest[i].hash !in l'.docs.blockOf {
      assert all[i + 1] == rest[i] && all[0].hash != all[i + 1].hash;
    }
    forall i, j | 0 <= i < j < |rest| ensures rest[i].hash != rest[j].hash { assert all[i + 1] == rest[i] && all[j + 1] == rest[j]; }
  }

  lemma FirstApart<T>(init: seq<T>, rest: seq<T>)
    requires init != []
    ensures init + rest == [init[0]] + (init[1..] + rest)
  {}

  lemma {:induction false} StaysNew(w: World, l: Ledger, init: seq<Tx>, rest: seq<Tx>, key: Address)
    requires AllNew(l, init + rest) && AllApplied(w, l, init, key)
    ensures AllNew(ApplyAll(w, l, init, key), rest)
    decreases |init|
  {
    if init == [] {
      assert init + rest == rest;
    } else {
      FirstApart(init, rest);
      NewBeside(w, l, init[0], init[1..] + rest, key);
      StaysNew(w, ApplyTransaction(w, l, init[0], key).ledger, init[1..], rest, key);
    }
  }

  // ----- The pool -----

  // A transaction of the pool; an incomplete one was not applied.
  datatype Pooled = Pooled(tx: Tx, complete: bool)

  function Completed(pool: seq<Pooled>): seq<Tx> {
    if pool == [] then []
    else
      var last := pool[|pool| - 1];
      Completed(pool[..|pool| - 1]) + if last.complete then [last.tx] else []
  }

  // The mirror of the node's own balance is written anew from the table of all accounts.
  function Mirrored(l: Ledger, node: Address): Ledger {
    l.(state := Balances.SetBalance(l.state, node, node, Lookup(l.state.accounts, node), true))
  }

  // That puts the mirror in step, whatever it was, and changes nothing else - and nothing at
  // all where it was in step.
  lemma MirroredIsReady(w: World, l: Ledger)
    requires Inv(w, l)
    ensures Inv(w, Mirrored(l, w.node)) && Ready(w, Mirrored(l, w.node), true)
    ensures Mirrored(l, w.node) == l.(state := l.state.(own := Mirrored(l, w.node).state.own))
    ensures Mirrored(l, w.node) == l <==> Ready(w, l, true)
  {
    var s := l.state;
    var v := Lookup(s.accounts, w.node);
    assert Balances.Put(s.accounts, w.node, v) == s.accounts;
    if Balances.Synced(s, w.node) { assert Balances.Put(s.own, w.node, v) == s.own; }
  }

  // Reverting the pool gives back the ledger of the chain, with the mirror in step.
  lemma RevertPoolUndoes(w: World, l: Ledger, pool: seq<Pooled>)
    requires AllApplied(w, l, Completed(pool), "") && Ready(w, l, true)
    ensures var back := RevertAll(w, ApplyAll(w, l, Completed(pool), ""), Completed(pool), "");
            back.Some? && Mirrored(back.value, w.node) == l
  {
    RevertAllUndoes(w, l, Completed(pool), "");
    MirroredIsReady(w, l);
  }
}
