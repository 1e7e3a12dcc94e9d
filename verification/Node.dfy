/** The node's stores as objects, and the handler that applies and reverts transactions on them. */
module NodeStores {
  import opened Basics
  import opened DocumentValues
  import opened DocumentStore
  import opened Transactions
  import Balances
  import Books
  import Payers
  import Sponsorship
  import SponsorIndex
  import Services
  import Authority
  import Authorization
  import Statistics

  /** The two balance tables. */
  class StateStore {
    const node: Address
    var accounts: Balances.Table
    var own: Balances.Table

    constructor (node: Address)
      ensures this.node == node && Value() == Balances.State(map[], map[])
    {
      this.node := node;
      accounts, own := map[], map[];
    }

    ghost function Value(): Balances.State
      reads this
    {
      Balances.State(accounts, own)
    }

    method GetBalance(key: Address, chain: bool) returns (amount: Amount)
      ensures amount == Lookup(if chain then own else accounts, key)
    {
      if !chain && key in accounts { return accounts[key]; }
      if chain && key in own { return own[key]; }
      return 0;
    }

    method SetBalance(key: Address, amount: Amount, chain: bool)
      modifies this
      ensures Value() == Balances.SetBalance(old(Value()), node, key, amount, chain)
    {
      accounts := if amount == 0 then accounts - {key} else accounts[key := amount];
      if chain && node == key {
        own := if amount == 0 then own - {key} else own[key := amount];
      }
    }

    method IncreaseBalance(key: Address, amount: Amount, chain: bool)
      modifies this
      ensures Value() == Balances.Increase(old(Value()), node, key, amount, chain)
    {
      if amount == 0 { return; }
      var balance := GetBalance(key, false);
      SetBalance(key, balance + amount, chain);
    }

    method DecreaseBalance(key: Address, amount: Amount, chain: bool) returns (ok: bool)
      modifies this
      ensures ok <==> Balances.Decrease(old(Value()), node, key, amount, chain).Some?
      ensures ok ==> Balances.Decrease(old(Value()), node, key, amount, chain) == Some(Value())
    {
      if amount == 0 { return true; }
      var balance := GetBalance(key, false);
      if balance < amount { return false; }
      SetBalance(key, balance - amount, chain);
      return true;
    }
  }

  datatype Reply = Yes | No

  /** What a transaction may read and change. */
  class Node {
    const genesis: int
    var length: nat
    const registry: Statistics.Registry
    const storages: set<Address>
    const roles: Services.Roles
    const state: StateStore
    const docs: Documents
    const rights: Authority.AuthorityManager

    constructor (chain: Chain, registry: Statistics.Registry, storages: set<Address>, roles: Services.Roles, node: Address, sort: SponsorIndex.Sort)
      ensures Valid() && Height() == chain && fresh(state) && fresh(docs) && fresh(rights)
      ensures Value() == Ledger(Balances.State(map[], map[]), Docs(map[], map[], map[], map[]), map[])
    {
      this.genesis, this.length, this.registry, this.storages, this.roles := chain.genesis, chain.length, registry, storages, roles;
      state := new StateStore(node);
      docs := new Documents(sort);
      rights := new Authority.AuthorityManager();
    }

    // The chain as far as it is built, its genesis block included.
    function Height(): Chain
      reads this`length
    {
      Chain(genesis, length)
    }

    ghost function World(): Transactions.World
      reads this`length
    {
      Transactions.World(Height(), state.node, registry, storages, roles, docs.sort)
    }

    ghost function Value(): Ledger
      reads state, docs, rights
    {
      Ledger(state.Value(), docs.Value(), rights.store)
    }

    ghost predicate Valid()
      reads this`length, state, docs, rights
    {
      docs.Indexes() && Inv(World(), Value())
    }

    lemma Known(tx: Tx)
      requires Valid()
      ensures Authority.RecordOf(rights.store, Owner(tx.action), tx.signer).Some?
    {
      SignedIsKnown(World(), Value(), tx);
    }

    method CheckSignature(tx: Tx) returns (ok: bool)
      ensures ok <==> Signed(Value(), tx)
    {
      var r := rights.CheckAuthority(Owner(tx.action), tx.signer, ActionId(tx.action));
      return r == Some(true);
    }

    // One trial or real cancellation at the time of the next block.
    method Cancel(sponsor: Address, uri: Uri, hash: Hash, dir: Direction, pretend: bool) returns (r: Report)
      requires docs.Indexes() && hash != "" && (dir.Backward? ==> dir.sort == docs.sort)
      modifies docs`units, docs`expiring
      ensures match SetUsedAt(old(docs.Value()), Height(), uri, length, dir, hash, sponsor, pretend)
              case Done(d, pays) => r == Pays(pays) && docs.Value() == d && docs.Indexes()
              case Failed(why) => r == Report.Threw(why)
    {
      r := docs.SetUsed(Height(), uri, length, dir, hash, sponsor, pretend);
    }

    method ActionCanApply(tx: Tx) returns (reply: Reply)
      requires Valid() && Validated(tx)
      modifies docs`units, docs`expiring
      ensures Valid() && Value() == old(Value())
      ensures reply == if CanApply(World(), Value(), tx) then Yes else No
    {
      ghost var l := Value();
      Known(tx);
      var allowed := CheckSignature(tx);
      if !allowed { return No; }
      match tx.action
      case Transfer(from, _, amount) =>
        var balance := state.GetBalance(from, false);
        return if balance < amount then No else Yes;
      case Sponsor(s) =>
        if s.uri !in registry.units { return No; }
        var balance := state.GetBalance(s.sponsor, false);
        return if balance < s.amount then No else Yes;
      case CancelSponsor(sponsor, uri, hash) =>
        if uri !in registry.units { return No; }
        if uri in docs.units {
          BooksOk(World(), l, uri);
          TrialVersusReal(l.docs, Height().Now(), uri, Height().Now(), hash, sponsor);
        }
        var r := Cancel(sponsor, uri, hash, Forward, true);
        return Yes;
      case UpdateStorage(storage, file, store) =>
        if storage !in storages || file !in registry.authors { return No; }
        var has := docs.StorageHasUri(file, storage);
        return if has == store then No else Yes;
      case UpdateAuthority(u) =>
        var v := Authorization.ActionCanApply(rights, tx.signer, u);
        return if v.Yes? then Yes else No;
    }

    method ApplyTransfer(from: Address, to: Address, amount: Amount, layer: bool) returns (ok: bool)
      modifies state
      ensures ok <==> Balances.Move(old(state.Value()), state.node, from, to, amount, layer).Some?
      ensures ok ==> Balances.Move(old(state.Value()), state.node, from, to, amount, layer) == Some(state.Value())
    {
      state.IncreaseBalance(to, amount, layer);
      ok := state.DecreaseBalance(from, amount, layer);
    }

    method ApplySponsor(s: Sponsoring, hash: Hash, layer: bool) returns (ok: bool)
      requires docs.Indexes() && (s.hours > 0 ==> Sponsorship.Ok(BookWith(docs.Value(), s, hash)))
      modifies state, docs
      ensures var paid, d := Balances.Decrease(old(state.Value()), state.node, s.sponsor, s.amount, layer), SponsorApply(old(docs.Value()), Height(), s, hash);
              && (ok <==> s.uri in registry.units && paid.Some? && d.Some?)
              && (ok ==> docs.Indexes() && paid == Some(state.Value()) && d == Some(docs.Value()))
    {
      if s.uri !in registry.units { return false; }
      ok := state.DecreaseBalance(s.sponsor, s.amount, layer);
      if ok { ok := docs.SponsorContentUnitApply(Height(), s, hash); }
    }

    method ApplyStorage(storage: Address, file: Uri, store: bool) returns (ok: bool)
      requires docs.Indexes() && OkHolders(docs.Value())
      modifies docs
      ensures ok <==> storage in storages && file in registry.authors && Holds(old(docs.Value()), file, storage) != store
      ensures ok ==> docs.Indexes() && docs.Value() == StorageUpdated(old(docs.Value()), file, storage, store)
    {
      if storage !in storages || file !in registry.authors { return false; }
      var has := docs.StorageHasUri(file, storage);
      if has == store { return false; }
      docs.StorageUpdate(file, storage, store);
      ok := true;
    }

    lemma BookWillBeOk(l: Ledger, tx: Tx)
      requires Inv(World(), l) && Validated(tx) && Unseen(l, tx) && tx.action.Sponsor?
      ensures Sponsorship.Ok(BookWith(l.docs, tx.action.sponsoring, tx.hash))
    {
      var s := tx.action.sponsoring;
      SponsorKeepsOk(l.docs, Height().Now(), Height(), s, tx.hash);
      assert OkBook(SponsorApply(l.docs, Height(), s, tx.hash).value, Height().Now(), s.uri);
    }

    // An action other than an authorization update, its signature checked.
    method ApplyStores(tx: Tx, layer: bool) returns (ok: bool)
      requires docs.Indexes() && OkHolders(docs.Value()) && Validated(tx) && !tx.action.UpdateAuthority?
      requires tx.action.Sponsor? ==> Sponsorship.Ok(BookWith(docs.Value(), tx.action.sponsoring, tx.hash))
      requires Revertable(Value(), tx)
      modifies state, docs
      ensures ok <==> Carried(World(), old(Value()), tx, layer).Some?
      ensures ok ==> docs.Indexes() && Carried(World(), old(Value()), tx, layer) == Some(Value())
    {
      match tx.action
      case Transfer(from, to, amount) => ok := ApplyTransfer(from, to, amount, layer);
      case Sponsor(s) => ok := ApplySponsor(s, tx.hash, layer);
      case CancelSponsor(sponsor, uri, hash) =>
        if uri !in registry.units { return false; }
        var r := Cancel(sponsor, uri, hash, Forward, false);
        ok := r.Pays?;
      case UpdateStorage(storage, file, store) => ok := ApplyStorage(storage, file, store);
    }

    // `ok` is false where the code throws.
    method ActionApply(tx: Tx, layer: bool) returns (ok: bool)
      requires Valid() && Validated(tx) && Unseen(Value(), tx) && Ready(World(), Value(), layer)
      modifies state, docs, rights
      ensures ok <==> Apply(World(), old(Value()), tx, layer).Some?
      ensures ok ==> docs.Indexes() && Apply(World(), old(Value()), tx, layer) == Some(Value())
    {
      var allowed := CheckSignature(tx);
      if !allowed { return false; }
      if tx.action.UpdateAuthority? {
        Authorization.ApplyThenRevert(rights.store, tx.action.update);
        var v := Authorization.ActionApply(rights, tx.signer, tx.action.update);
        return v.Yes?;
      }
      if tx.action.Sponsor? { BookWillBeOk(Value(), tx); }
      InvReverts(World(), Value(), tx);
      ok := ApplyStores(tx, layer);
    }

    method RevertTransfer(from: Address, to: Address, amount: Amount, layer: bool) returns (ok: bool)
      modifies state
      ensures ok <==> Balances.Move(old(state.Value()), state.node, to, from, amount, layer).Some?
      ensures ok ==> Balances.Move(old(state.Value()), state.node, to, from, amount, layer) == Some(state.Value())
    {
      state.IncreaseBalance(from, amount, layer);
      ok := state.DecreaseBalance(to, amount, layer);
    }

    method RevertSponsor(s: Sponsoring, hash: Hash, layer: bool) returns (ok: bool)
      requires docs.Indexes()
      modifies state, docs
      ensures ok <==> SponsorRevert(old(docs.Value()), Height(), s, hash).Some?
      ensures ok ==> docs.Indexes() && SponsorRevert(old(docs.Value()), Height(), s, hash) == Some(docs.Value())
      ensures ok ==> state.Value() == Balances.Increase(old(state.Value()), state.node, s.sponsor, s.amount, layer)
    {
      state.IncreaseBalance(s.sponsor, s.amount, layer);
      ok := docs.SponsorContentUnitRevert(Height(), s, hash);
    }

    // The store after an undone action, before the last check of the signature.
    method RevertStores(tx: Tx, layer: bool) returns (ok: bool)
      requires docs.Indexes() && OkHolders(docs.Value()) && Validated(tx) && Revertable(Value(), tx) && !tx.action.UpdateAuthority?
      modifies state, docs
      ensures ok <==> Undone(World(), old(Value()), tx, layer).Some?
      ensures ok ==> docs.Indexes() && Undone(World(), old(Value()), tx, layer) == Some(Value())
    {
      match tx.action
      case Transfer(from, to, amount) => ok := RevertTransfer(from, to, amount, layer);
      case Sponsor(s) => ok := RevertSponsor(s, tx.hash, layer);
      case CancelSponsor(sponsor, uri, hash) =>
        var r := Cancel(sponsor, uri, hash, Backward(docs.sort), false);
        ok := r.Pays?;
      case UpdateStorage(storage, file, store) =>
        docs.StorageUpdate(file, storage, !store);
        ok := true;
    }

    method ActionRevert(tx: Tx, layer: bool) returns (ok: bool)
      requires docs.Indexes() && Authority.Normal(rights.store) && OkHolders(docs.Value()) && Validated(tx) && Revertable(Value(), tx)
      modifies state, docs, rights
      ensures ok <==> Revert(World(), old(Value()), tx, layer).Some?
      ensures ok ==> docs.Indexes() && Revert(World(), old(Value()), tx, layer) == Some(Value())
    {
      if tx.action.UpdateAuthority? {
        var v := Authorization.ActionRevert(rights, tx.action.update);
        return v.Yes?;
      }
      ok := RevertStores(tx, layer);
      if ok { ok := CheckSignature(tx); }
    }

    method FeeCanApply(tx: Tx) returns (ok: bool)
      ensures ok <==> Balance(Value(), Owner(tx.action)) >= tx.fee
    {
      var balance := state.GetBalance(Owner(tx.action), false);
      return balance >= tx.fee;
    }

    method FeeApply(tx: Tx, receiver: Address) returns (ok: bool)
      modifies state
      ensures receiver == "" ==> ok && Value() == old(Value())
      ensures receiver != "" ==>
                var s := Balances.Move(old(state.Value()), state.node, Owner(tx.action), receiver, tx.fee, true);
                && (ok <==> s.Some?) && (ok ==> Value() == old(Value()).(state := s.value))
    {
      if receiver == "" { return true; }
      state.IncreaseBalance(receiver, tx.fee, true);
      ok := state.DecreaseBalance(Owner(tx.action), tx.fee, true);
    }

    method FeeRevert(tx: Tx, receiver: Address) returns (ok: bool)
      modifies state
      ensures receiver == "" ==> ok && Value() == old(Value())
      ensures receiver != "" ==>
                var s := Balances.MoveBack(old(state.Value()), state.node, Owner(tx.action), receiver, tx.fee, true);
                && (ok <==> s.Some?) && (ok ==> Value() == old(Value()).(state := s.value))
    {
      if receiver == "" { return true; }
      ok := state.DecreaseBalance(receiver, tx.fee, true);
      if ok { state.IncreaseBalance(Owner(tx.action), tx.fee, true); }
    }

    // The fee after the action, or the action undone.
    method Charge(tx: Tx, key: Address) returns (applied: Option<bool>)
      requires docs.Indexes() && Authority.Normal(rights.store) && OkHolders(docs.Value()) && Validated(tx) && Revertable(Value(), tx)
      modifies state, docs, rights
      ensures match Charged(World(), old(Value()), tx, key)
              case Applied(l) => applied == Some(true) && Value() == l && docs.Indexes()
              case Refused(l) => applied == Some(false) && Value() == l && docs.Indexes()
              case Threw => applied == None
    {
      var affordable := FeeCanApply(tx);
      var ok;
      if !affordable {
        ok := ActionRevert(tx, key != "");
        return if ok then Some(false) else None;
      }
      ok := FeeApply(tx, key);
      return if ok then Some(true) else None;
    }

    // None where the code throws; otherwise whether the transaction was applied.
    method ApplyTx(tx: Tx, key: Address) returns (applied: Option<bool>)
      requires Valid() && Validated(tx) && Unseen(Value(), tx) && Ready(World(), Value(), key != "")
      modifies state, docs, rights
      ensures match ApplyTransaction(World(), old(Value()), tx, key)
              case Applied(l) => applied == Some(true) && Value() == l && Valid() && Ready(World(), Value(), key != "")
              case Refused(l) => applied == Some(false) && Value() == l == old(Value()) && Valid()
              case Threw => applied == None
      ensures applied == Some(true) <==> Payers.Applicable(World(), old(Value()), tx)
    {
      ghost var w, l := World(), Value();
      RefusedLeavesNoTrace(w, l, tx, key);
      Payers.AppliedExactly(w, l, tx, key);
      var can := ActionCanApply(tx);
      if can.No? { return Some(false); }
      var ok := ActionApply(tx, key != "");
      if !ok { return None; }
      ApplyKeepsInv(w, l, tx, key != "");
      InvReverts(w, Value(), tx);
      applied := Charge(tx, key);
      if applied == Some(true) { TransactionKeepsInv(w, l, tx, key); }
    }

    method RevertTx(tx: Tx, key: Address) returns (ok: bool)
      requires docs.Indexes() && Authority.Normal(rights.store) && OkHolders(docs.Value()) && Validated(tx) && Revertable(Value(), tx)
      modifies state, docs, rights
      ensures ok <==> RevertTransaction(World(), old(Value()), tx, key).Some?
      ensures ok ==> docs.Indexes() && RevertTransaction(World(), old(Value()), tx, key) == Some(Value())
    {
      ok := FeeRevert(tx, key);
      if ok { ok := ActionRevert(tx, key != ""); }
    }

    // The next transaction of a block.
    method ApplyNext(txs: seq<Tx>, i: nat, key: Address, ghost l: Ledger) returns (ok: bool)
      requires i < |txs| && Valid() && AllNew(l, txs)
      requires AllApplied(World(), l, txs[..i], key) && Value() == ApplyAll(World(), l, txs[..i], key)
      modifies state, docs, rights
      ensures ok ==> Valid() && AllApplied(World(), l, txs[..i + 1], key) && Value() == ApplyAll(World(), l, txs[..i + 1], key)
      ensures !ok ==> !AllApplied(World(), l, txs, key)
    {
      NextIsNew(World(), l, txs, i, key);
      NextApplies(World(), l, txs, i, key);
      var applied := ApplyTx(txs[i], key);
      ok := applied == Some(true);
    }

    // The transactions of a block in order; false as soon as one is refused or throws.
    method ApplyTxs(txs: seq<Tx>, key: Address) returns (ok: bool)
      requires Valid() && AllNew(Value(), txs) && Ready(World(), Value(), key != "")
      modifies state, docs, rights
      ensures ok <==> AllApplied(World(), old(Value()), txs, key)
      ensures ok ==> Valid() && Value() == ApplyAll(World(), old(Value()), txs, key)
    {
      ghost var l := Value();
      for i := 0 to |txs|
        invariant Valid() && AllApplied(World(), l, txs[..i], key) && Value() == ApplyAll(World(), l, txs[..i], key)
      {
        ok := ApplyNext(txs, i, key, l);
        if !ok { return; }
      }
      assert txs[..|txs|] == txs;
      return true;
    }

    // The node stands where the transactions lead from `l`.
    ghost predicate Reached(l: Ledger, txs: seq<Tx>, key: Address)
      reads this`length, state, docs, rights
    {
      docs.Indexes() && AllApplied(World(), l, txs, key) && Value() == ApplyAll(World(), l, txs, key)
    }

    // The last applied transaction is taken back.
    method RevertLast(ghost l: Ledger, ghost init: seq<Tx>, tx: Tx, key: Address) returns (ok: bool)
      requires Reached(l, init + [tx], key)
      modifies state, docs, rights
      ensures ok && Reached(l, init, key)
    {
      LastApplied(World(), l, init, tx, key);
      ok := RevertTx(tx, key);
    }

    lemma ReachedStart(l: Ledger, key: Address)
      requires Reached(l, [], key)
      ensures Valid() && Value() == l
    {}

    // Taking the transactions of a block back, the last one first.
    method RevertTxs(ghost l: Ledger, txs: seq<Tx>, key: Address) returns (ok: bool)
      requires Reached(l, txs, key)
      modifies state, docs, rights
      ensures ok && Valid() && Value() == l
    {
      assert txs[..|txs|] == txs;
      for i := |txs| downto 0
        invariant Reached(l, txs[..i], key)
      {
        assert txs[..i] + [txs[i]] == txs[..i + 1];
        ok := RevertLast(l, txs[..i], txs[i], key);
      }
      assert txs[..0] == [];
      ReachedStart(l, key);
      return true;
    }
  }
}
