/**
 Who has to have signed a transaction, who pays it, and when exactly it is applied - said of the
 accounts it names and of what the store of authorizations says about them.
 */
module Payers {
  import opened Basics
  import opened DocumentValues
  import opened Transactions
  import Authority
  import Authorization
  import Balances
  import Sponsorship

  // ----- Who may sign -----

  // A full record allows all kinds but those it lists, any other record only those.
  predicate MaySign(l: Ledger, account: Address, signer: Address, kind: nat) {
    var r := Authority.RecordOf(l.rights, account, signer);
    r.Some? && if r.value.full then kind !in r.value.ids else kind in r.value.ids
  }

  predicate SameKind(a: Action, b: Action) {
    || (a.Transfer? && b.Transfer?) || (a.Sponsor? && b.Sponsor?) || (a.CancelSponsor? && b.CancelSponsor?)
    || (a.UpdateStorage? && b.UpdateStorage?) || (a.UpdateAuthority? && b.UpdateAuthority?)
  }

  lemma KindsDiffer(a: Action, b: Action)
    ensures ActionId(a) == ActionId(b) <==> SameKind(a, b)
  {}

  // Awarding the kind of one action lets the actor sign that kind for the owner, rejecting it
  // takes that away again; no other kind, owner or actor is touched.
  lemma AwardedKind(l: Ledger, u: Authorization.Update, a: Action, b: Action, account: Address, signer: Address)
    requires Authority.Normal(l.rights) && Authorization.CanApply(l.rights, u) && u.ids == {ActionId(a)}
    ensures Authorization.Apply(l.rights, u).Some?
    ensures var after := l.(rights := Authorization.Apply(l.rights, u).value);
            MaySign(after, account, signer, ActionId(b)) <==>
            if account == u.owner && signer == u.actor && SameKind(a, b) then u.store else MaySign(l, account, signer, ActionId(b))
  {
    Authorization.ApplyThenRevert(l.rights, u);
    KindsDiffer(a, b);
    RecordWith(l.rights, u, ActionId(a), ActionId(b));
    var after := Authorization.Apply(l.rights, u).value;
    var r, r' := Authority.RecordOf(l.rights, account, signer), Authority.RecordOf(after, account, signer);
    assert account != u.owner || signer != u.actor ==> r' == r;
    SignsBy(l, account, signer, ActionId(b), r);
    SignsBy(l.(rights := after), account, signer, ActionId(b), r');
  }

  lemma SignsBy(l: Ledger, account: Address, signer: Address, kind: nat, r: Option<Authority.Record>)
    requires r == Authority.RecordOf(l.rights, account, signer)
    ensures MaySign(l, account, signer, kind) <==> r.Some? && if r.value.full then kind !in r.value.ids else kind in r.value.ids
  {}

  lemma RecordWith(s: Authority.Store, u: Authorization.Update, k: nat, k': nat)
    requires Authority.Normal(s) && Authorization.CanApply(s, u) && u.ids == {k}
    ensures var r := Authority.RecordOf(s, u.owner, u.actor).value;
            var r' := Authorization.Applied(r, u).value;
            !r.full && !r'.full && (k' in r'.ids <==> if k == k' then u.store else k' in r.ids)
  {
    assert k in u.ids;
  }

  // Awarding everything, or rejecting it.
  lemma AwardedAll(l: Ledger, u: Authorization.Update, b: Action, account: Address, signer: Address)
    requires Authority.Normal(l.rights) && Authorization.CanApply(l.rights, u) && u.ids == {}
    ensures Authorization.Apply(l.rights, u).Some?
    ensures var after := l.(rights := Authorization.Apply(l.rights, u).value);
            MaySign(after, account, signer, ActionId(b)) <==>
            if account == u.owner && signer == u.actor then u.store else MaySign(l, account, signer, ActionId(b))
  {
    Authorization.ApplyThenRevert(l.rights, u);
  }

  // ----- Who pays -----

  // What a transaction costs an account, and what it brings.
  function Cost(action: Action, fee: Amount, a: Address): Amount {
    match action
    case Transfer(from, _, amount) => if a == from then amount + fee else 0
    case Sponsor(s) => if a == s.sponsor then s.amount + fee else 0
    case CancelSponsor(sponsor, _, _) => if a == sponsor then fee else 0
    case UpdateStorage(storage, _, _) => if a == storage then fee else 0
    case UpdateAuthority(u) => if a == u.owner then fee else 0
  }

  function Gain(action: Action, fee: Amount, key: Address, a: Address): Amount {
    (if action.Transfer? && a == action.to then action.amount else 0) + if a == key then fee else 0
  }

  // In the pool nobody is charged.
  function FeeOf(tx: Tx, key: Address): Amount {
    if key == "" then 0 else tx.fee
  }

  lemma ActionMoves(w: World, l: Ledger, tx: Tx, chain: bool, a: Address)
    requires Inv(w, l) && Validated(tx) && Unseen(l, tx) && Ready(w, l, chain)
    ensures CanApply(w, l, tx) && Apply(w, l, tx, chain).Some? ==>
              Balance(Apply(w, l, tx, chain).value, a) + Cost(tx.action, 0, a) == Balance(l, a) + Gain(tx.action, 0, "", a)
  {
    if CanApply(w, l, tx) && Apply(w, l, tx, chain).Some? {
      match tx.action
      case Transfer(from, to, amount) => Balances.MoveKeeps(l.state, w.node, from, to, amount, chain);
      case Sponsor(s) => Balances.DecreaseKeeps(l.state, w.node, s.sponsor, s.amount, chain);
      case _ =>
    }
  }

  // ----- When it is applied -----

  // The account a transaction is about allowed it, the objects it names are there, and that
  // account has what the action and the fee cost.
  ghost predicate Applicable(w: World, l: Ledger, tx: Tx)
    requires Inv(w, l)
  {
    var kind := ActionId(tx.action);
    match tx.action
    case Transfer(from, to, amount) => MaySign(l, from, tx.signer, kind) && Balance(l, from) >= amount + tx.fee
    case Sponsor(s) => MaySign(l, s.sponsor, tx.signer, kind) && s.uri in w.registry.units && Balance(l, s.sponsor) >= s.amount + tx.fee
    case CancelSponsor(sponsor, uri, hash) =>
      MaySign(l, sponsor, tx.signer, kind) && uri in w.registry.units && !WrongCancel(w, l, tx) && Balance(l, sponsor) >= tx.fee
    case UpdateStorage(storage, file, store) =>
      && MaySign(l, storage, tx.signer, kind) && storage in w.storages && file in w.registry.authors
      && Holds(l.docs, file, storage) == !store && Balance(l, storage) >= tx.fee
    case UpdateAuthority(u) => MaySign(l, u.owner, tx.signer, kind) && Authorization.CanApply(l.rights, u) && Balance(l, u.owner) >= tx.fee
  }

  lemma AppliedWhenPaid(w: World, l: Ledger, tx: Tx, key: Address)
    requires Inv(w, l) && Validated(tx) && Unseen(l, tx) && Ready(w, l, key != "")
    ensures var a := Owner(tx.action);
            ApplyTransaction(w, l, tx, key).Applied? <==>
            CanApply(w, l, tx) && !WrongCancel(w, l, tx) && Balance(l, a) + Gain(tx.action, 0, "", a) >= Cost(tx.action, tx.fee, a)
  {
    CanApplyMeansApplies(w, l, tx, key != "");
    RefusedLeavesNoTrace(w, l, tx, key);
    ActionMoves(w, l, tx, key != "", Owner(tx.action));
  }

  lemma TrialSucceeds(w: World, l: Ledger, tx: Tx)
    requires Inv(w, l) && Validated(tx) && tx.action.CancelSponsor?
    ensures CanApply(w, l, tx) <==> Signed(l, tx) && tx.action.uri in w.registry.units
  {
    if tx.action.uri in l.docs.books {
      BooksOk(w, l, tx.action.uri);
      TrialVersusReal(l.docs, w.chain.Now(), tx.action.uri, w.chain.Now(), tx.action.hash, tx.action.sponsor);
    }
  }

  lemma AppliedExactly(w: World, l: Ledger, tx: Tx, key: Address)
    requires Inv(w, l) && Validated(tx) && Unseen(l, tx) && Ready(w, l, key != "")
    ensures ApplyTransaction(w, l, tx, key).Applied? <==> Applicable(w, l, tx)
  {
    AppliedWhenPaid(w, l, tx, key);
    if tx.action.CancelSponsor? { TrialSucceeds(w, l, tx); }
  }

  // An applied transaction moves exactly its cost and its gain; in a block the fee is the miner's.
  lemma AppliedPays(w: World, l: Ledger, tx: Tx, key: Address, a: Address)
    requires Inv(w, l) && Validated(tx) && Unseen(l, tx) && Ready(w, l, key != "")
    requires ApplyTransaction(w, l, tx, key).Applied?
    ensures Balance(ApplyTransaction(w, l, tx, key).ledger, a) + Cost(tx.action, FeeOf(tx, key), a)
            == Balance(l, a) + Gain(tx.action, FeeOf(tx, key), key, a)
  {
    ActionMoves(w, l, tx, key != "", a);
    ApplyKeepsInv(w, l, tx, key != "");
    var l1 := Apply(w, l, tx, key != "").value;
    if key != "" { Balances.MoveKeeps(l1.state, w.node, Owner(tx.action), key, tx.fee, true); }
  }

  // Whoever has less afterwards allowed it, and loses no more than the action's amount and, in
  // a block, the fee.
  lemma LosersAllowed(w: World, l: Ledger, tx: Tx, key: Address, a: Address)
    requires Inv(w, l) && Validated(tx) && Unseen(l, tx) && Ready(w, l, key != "")
    requires ApplyTransaction(w, l, tx, key).Applied?
    requires Balance(ApplyTransaction(w, l, tx, key).ledger, a) < Balance(l, a)
    ensures MaySign(l, a, tx.signer, ActionId(tx.action))
    ensures Balance(l, a) <= Balance(ApplyTransaction(w, l, tx, key).ledger, a) + Cost(tx.action, FeeOf(tx, key), a)
  {
    AppliedPays(w, l, tx, key, a);
    AppliedExactly(w, l, tx, key);
  }

  // An account with full rights to sign for itself needs no more than the means.
  lemma OwnTransferApplies(w: World, l: Ledger, tx: Tx, key: Address)
    requires Inv(w, l) && Validated(tx) && Ready(w, l, key != "") && tx.action.Transfer?
    requires tx.signer == tx.action.from && Authority.RecordOf(l.rights, tx.action.from, tx.action.from) == Some(Authority.FULL)
    ensures ApplyTransaction(w, l, tx, key).Applied? <==> Balance(l, tx.action.from) >= tx.action.amount + tx.fee
  {
    AppliedExactly(w, l, tx, key);
  }

  // ----- What it does besides -----

  lemma CancelKeepsHolders(d: Docs, uri: Uri, t: int, hash: Hash, account: Address)
    requires uri in d.books && Sponsorship.Ok(d.books[uri]) && Cancelling(d, uri, t, Forward, hash, account, false).Done?
    ensures Cancelling(d, uri, t, Forward, hash, account, false).docs.holders == d.holders
  {}

  lemma HoldersAfter(w: World, l: Ledger, tx: Tx, chain: bool)
    requires Inv(w, l) && Validated(tx) && Apply(w, l, tx, chain).Some? && !tx.action.UpdateStorage?
    ensures Apply(w, l, tx, chain).value.docs.holders == l.docs.holders
    ensures tx.action.Transfer? || tx.action.UpdateAuthority? ==> Apply(w, l, tx, chain).value.docs == l.docs
  {
    if tx.action.CancelSponsor? && tx.action.uri in l.docs.books {
      BooksOk(w, l, tx.action.uri);
      CancelKeepsHolders(l.docs, tx.action.uri, w.chain.Now(), tx.action.hash, tx.action.sponsor);
    }
  }

  // An applied transaction changes the documents by its own kind only.
  lemma OthersStay(w: World, l: Ledger, tx: Tx, key: Address)
    requires Inv(w, l) && Validated(tx) && Unseen(l, tx) && Ready(w, l, key != "")
    requires ApplyTransaction(w, l, tx, key).Applied?
    ensures var d, d' := l.docs, ApplyTransaction(w, l, tx, key).ledger.docs;
            && (tx.action.Transfer? || tx.action.UpdateAuthority? ==> d' == d)
            && (!tx.action.UpdateStorage? ==> d'.holders == d.holders)
            && (tx.action.UpdateStorage? ==> d'.books == d.books && d'.expiring == d.expiring && d'.blockOf == d.blockOf)
  {
    DocsAfter(w, l, tx, key);
    if !tx.action.UpdateStorage? { HoldersAfter(w, l, tx, key != ""); }
  }

  lemma HeldAfter(d: Docs, file: Uri, storage: Address, store: bool, uri: Uri, a: Address)
    ensures Holds(StorageUpdated(d, file, storage, store), uri, a) <==>
            if uri == file && a == storage then store else Holds(d, uri, a)
  {}

  // A storage update changes whether the storage holds the file, and nothing else.
  lemma StorageApplied(w: World, l: Ledger, tx: Tx, key: Address, file: Uri, a: Address)
    requires Inv(w, l) && Validated(tx) && Ready(w, l, key != "") && tx.action.UpdateStorage?
    requires ApplyTransaction(w, l, tx, key).Applied?
    ensures Holds(ApplyTransaction(w, l, tx, key).ledger.docs, file, a) <==>
            if file == tx.action.file && a == tx.action.storage then tx.action.store else Holds(l.docs, file, a)
  {
    DocsAfter(w, l, tx, key);
    HeldAfter(l.docs, tx.action.file, tx.action.storage, tx.action.store, file, a);
  }

  // A sponsoring adds one sponsorship to its unit: of its amount, for its hours from its start,
  // to be given back with the first later block that its end allows.
  lemma SponsoringApplied(w: World, l: Ledger, tx: Tx, key: Address)
    requires Inv(w, l) && Validated(tx) && Unseen(l, tx) && Ready(w, l, key != "") && tx.action.Sponsor?
    requires ApplyTransaction(w, l, tx, key).Applied?
    ensures var s, d, d' := tx.action.sponsoring, l.docs, ApplyTransaction(w, l, tx, key).ledger.docs;
            var before := if s.uri in d.books then d.books[s.uri].items else [];
            && s.uri in d'.books && d'.books == d.books[s.uri := d'.books[s.uri]]
            && |d'.books[s.uri].items| == |before| + 1 && d'.books[s.uri].items[..|before|] == before
            && var it := d'.books[s.uri].items[|before|];
               && it.amount == s.amount && it.sponsor == s.sponsor && it.hash == tx.hash && !it.cancelled
               && it.start == s.start && it.end == s.start + s.hours * 60 * 60
               && d'.books[s.uri].points == (if s.uri in d.books then d.books[s.uri].points else [s.start])
               && Due(d', ExpiringBlock(w.chain, it.end), s.uri, tx.hash)
  {
    DocsAfter(w, l, tx, key);
  }
}
