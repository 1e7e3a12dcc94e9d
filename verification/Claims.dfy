/**
 What one sponsorship is still owed, followed by its hash through transactions and blocks:
 from the moment it is made everything owed is paid out, or lost by an early use.
 */
module Claims {
  import opened Basics
  import opened Sponsorship
  import opened Books
  import opened DocumentValues
  import opened BlockDocs
  import opened BlockRewards
  import opened Transactions
  import opened Blocks
  import opened Conservation
  import opened Forks
  import Settlement
  import Runs

  // ----- One book -----

  ghost function Position(b: Book, h: Hash): (p: Option<nat>)
    ensures p.Some? ==> p.value < |b.items| && b.items[p.value].hash == h
    ensures p.None? ==> forall i :: 0 <= i < |b.items| ==> b.items[i].hash != h
  {
    if exists i: nat :: i < |b.items| && b.items[i].hash == h then
      var i: nat :| i < |b.items| && b.items[i].hash == h;
      Some(i)
    else None
  }

  lemma PositionIs(b: Book, h: Hash, i: nat)
    requires Ok(b) && i < |b.items| && b.items[i].hash == h
    ensures Position(b, h) == Some(i)
  {}

  // What the book still owes the sponsorship `h`.
  ghost function RestOf(b: Book, h: Hash): Amount
    requires Ok(b)
  {
    if Position(b, h).Some? then Remaining(b, Position(b, h).value) else 0
  }

  ghost function AmountOf(b: Book, h: Hash): Amount {
    if Position(b, h).Some? then b.items[Position(b, h).value].amount else 0
  }

  ghost function LostBy(b: Book, t: int, h: Hash): Amount
    requires Ok(b)
  {
    if Position(b, h).Some? then Lost(b, t, Position(b, h).value) else 0
  }

  function BroughtBy(s: Step, h: Hash): Amount {
    if s.Sponsor? && s.item.hash == h then s.item.amount else 0
  }

  lemma NothingPaid(b: Book, s: Step, h: Hash)
    requires Ok(b) && Allowed(b, s) && Position(b, h).None?
    ensures Paid(StepPays(b, s), h) == 0
  {
    match s
    case Sponsor(_) =>
    case Use(t) => if t > b.Last() { ScanHashes(b, t, ""); }
    case Cancel(t, hash) => if t > b.Last() { ScanHashes(b, t, hash); }
  }

  lemma AfterPosition(b: Book, s: Step, h: Hash)
    requires Ok(b) && Allowed(b, s) && !(s.Sponsor? && s.item.hash == h)
    ensures Ok(After(b, s)) && Position(After(b, s), h) == Position(b, h)
  {
    AfterIsOk(b, s);
    if Position(b, h).Some? {
      var i := Position(b, h).value;
      assert After(b, s).items[i].(cancelled := false).hash == b.items[i].(cancelled := false).hash;
      PositionIs(After(b, s), h, i);
    } else {
      assert s.Cancel? && s.cancelTime <= b.Last() ==> After(b, s) == b;
    }
  }

  // A new sponsorship is owed its whole amount.
  lemma NewClaim(b: Book, it: Item)
    requires Ok(b) && Allowed(b, Step.Sponsor(it))
    ensures Ok(Sponsored(b, it)) && Position(b, it.hash).None?
    ensures RestOf(Sponsored(b, it), it.hash) == it.amount == AmountOf(Sponsored(b, it), it.hash)
  {
    AfterIsOk(b, Step.Sponsor(it));
    var n := |b.items|;
    PositionIs(Sponsored(b, it), it.hash, n);
    EarnedEnds(Sponsored(b, it).items[n]);
  }

  // One step: what is brought in and what was owed is paid, lost or still owed.
  lemma StepClaim(b: Book, s: Step, h: Hash)
    requires Ok(b) && Allowed(b, s)
    ensures Ok(After(b, s))
    ensures RestOf(b, h) + BroughtBy(s, h) ==
            Paid(StepPays(b, s), h) + (if s.Use? then LostBy(b, s.time, h) else 0) + RestOf(After(b, s), h)
    ensures AmountOf(After(b, s), h) == AmountOf(b, h) + BroughtBy(s, h)
  {
    if s.Sponsor? && s.item.hash == h {
      NewClaim(b, s.item);
    } else {
      AfterPosition(b, s, h);
      AfterIsOk(b, s);
      if Position(b, h).Some? {
        var i := Position(b, h).value;
        StepSettles(b, s, i);
        assert After(b, s).items[i].(cancelled := false).amount == b.items[i].(cancelled := false).amount;
      } else {
        NothingPaid(b, s, h);
      }
    }
  }

  // ----- The store -----

  ghost predicate Booked(d: Docs, h: Hash) {
    HasExpiry(d, h) && ExpiryOf(d, h).uri in d.books && Ok(d.books[ExpiryOf(d, h).uri])
  }

  function Home(d: Docs, h: Hash): Uri
    requires HasExpiry(d, h)
  {
    ExpiryOf(d, h).uri
  }

  ghost function Left(d: Docs, h: Hash): Amount {
    if Booked(d, h) then RestOf(d.books[Home(d, h)], h) else 0
  }

  // The amount it was made with.
  ghost function Promised(d: Docs, h: Hash): Amount {
    if Booked(d, h) then AmountOf(d.books[Home(d, h)], h) else 0
  }

  // The sponsorship is in the book its expiration entry names, and in no other.
  lemma OnlyAtHome(d: Docs, uri: Uri, h: Hash)
    requires OkEntries(d) && uri in d.books && Position(d.books[uri], h).Some?
    ensures HasExpiry(d, h) && Home(d, h) == uri
  {
    assert OkEntry(d, uri, d.books[uri].items[Position(d.books[uri], h).value]);
  }

  // Replacing one book by what a step makes of it.
  lemma BookClaim(d: Docs, d': Docs, uri: Uri, s: Step, h: Hash)
    requires OkEntries(d) && uri in d.books && Ok(d.books[uri]) && Allowed(d.books[uri], s) && !(s.Sponsor? && s.item.hash == h)
    requires d'.books == d.books[uri := After(d.books[uri], s)]
    requires HasExpiry(d, h) <==> HasExpiry(d', h)
    requires HasExpiry(d, h) ==> Home(d, h) == Home(d', h)
    ensures Left(d, h) == Paid(StepPays(d.books[uri], s), h) + (if s.Use? then LostBy(d.books[uri], s.time, h) else 0) + Left(d', h)
    ensures Promised(d', h) == Promised(d, h)
  {
    var b := d.books[uri];
    StepClaim(b, s, h);
    if Position(b, h).Some? {
      OnlyAtHome(d, uri, h);
    } else {
      NothingPaid(b, s, h);
      AfterPosition(b, s, h);
    }
  }

  // ----- Transactions -----

  function Brought(tx: Tx, h: Hash): Amount {
    if tx.action.Sponsor? && tx.hash == h then tx.action.sponsoring.amount else 0
  }

  ghost function TakenOut(w: World, l: Ledger, tx: Tx, h: Hash): Amount {
    if tx.action.CancelSponsor? && tx.action.hash == h then Withdrawn(w, l, tx) else 0
  }

  lemma OpenedClaim(it: Item)
    requires it.start < it.end && it.hash != ""
    ensures Ok(Opened(it)) && RestOf(Opened(it), it.hash) == it.amount == AmountOf(Opened(it), it.hash)
  {
    var b := Opened(it);
    assert OkItem(b.items[0], 1);
    PositionIs(b, it.hash, 0);
    EarnedEnds(b.items[0]);
  }

  lemma MayAppend(d: Docs, s: Sponsoring, hash: Hash)
    requires OkEntries(d) && s.uri in d.books && Ok(d.books[s.uri]) && s.hours > 0 && hash != "" && hash !in d.blockOf
    ensures Allowed(d.books[s.uri], Step.Sponsor(NewItem(s, hash)))
  {
    var b := d.books[s.uri];
    forall i | 0 <= i < |b.items| ensures b.items[i].hash != hash { assert OkEntry(d, s.uri, b.items[i]); }
  }

  lemma OwnSponsorClaim(d: Docs, c: Chain, s: Sponsoring, hash: Hash)
    requires OkEntries(d) && s.hours > 0 && hash != "" && hash !in d.blockOf
    requires s.uri in d.books ==> Ok(d.books[s.uri])
    ensures var d' := SponsorApply(d, c, s, hash).value;
            Left(d', hash) == s.amount == Promised(d', hash) && Left(d, hash) == 0 == Promised(d, hash)
  {
    if s.uri in d.books {
      MayAppend(d, s, hash);
      NewClaim(d.books[s.uri], NewItem(s, hash));
    } else {
      OpenedClaim(NewItem(s, hash));
    }
  }

  lemma EntryStays(d: Docs, c: Chain, s: Sponsoring, hash: Hash, h: Hash)
    requires s.hours > 0 && hash != h
    ensures var d' := SponsorApply(d, c, s, hash).value;
            (HasExpiry(d', h) <==> HasExpiry(d, h)) && (HasExpiry(d, h) ==> ExpiryOf(d', h) == ExpiryOf(d, h))
  {}

  lemma OtherSponsorClaim(d: Docs, c: Chain, s: Sponsoring, hash: Hash, h: Hash)
    requires OkEntries(d) && OkTable(d) && s.hours > 0 && hash != "" && hash !in d.blockOf && hash != h
    requires s.uri in d.books ==> Ok(d.books[s.uri])
    ensures var d' := SponsorApply(d, c, s, hash).value;
            Left(d', h) == Left(d, h) && Promised(d', h) == Promised(d, h)
  {
    var d' := SponsorApply(d, c, s, hash).value;
    EntryStays(d, c, s, hash, h);
    if HasExpiry(d, h) { assert OkRow(d, d.blockOf[h], h); }
    if s.uri in d.books {
      MayAppend(d, s, hash);
      BookClaim(d, d', s.uri, Step.Sponsor(NewItem(s, hash)), h);
    }
  }

  lemma CancelClaim(d: Docs, uri: Uri, t: int, hash: Hash, account: Address, h: Hash)
    requires OkEntries(d) && uri in d.books && Ok(d.books[uri]) && hash != ""
    requires Cancelling(d, uri, t, Forward, hash, account, false).Done?
    ensures var d' := Cancelling(d, uri, t, Forward, hash, account, false).docs;
            && Left(d, h) == Left(d', h) + (if hash == h then Paid(CancelPays(d.books[uri], t, hash), h) else 0)
            && Promised(d', h) == Promised(d, h)
  {
    if hash in CancelPays(d.books[uri], t, hash) {
      ForwardDone(d, uri, t, hash, account);
      CancelPaysOne(d.books[uri], t, hash);
      BookClaim(d, CancelledDocs(d, uri, t, hash, account), uri, Cancel(t, hash), h);
    }
  }

  lemma SameClaim(d: Docs, d': Docs, h: Hash)
    requires d'.books == d.books && d'.expiring == d.expiring && d'.blockOf == d.blockOf
    ensures Left(d', h) == Left(d, h) && Promised(d', h) == Promised(d, h)
  {}

  lemma ActionSponsorClaim(w: World, l: Ledger, tx: Tx, chain: bool, h: Hash)
    requires Inv(w, l) && Validated(tx) && Unseen(l, tx) && tx.action.Sponsor? && Apply(w, l, tx, chain).Some?
    ensures var d' := Apply(w, l, tx, chain).value.docs;
            Left(d', h) == Left(l.docs, h) + Brought(tx, h) && Promised(d', h) == Promised(l.docs, h) + Brought(tx, h)
  {
    var s := tx.action.sponsoring;
    if s.uri in l.docs.books { BooksOk(w, l, s.uri); }
    if tx.hash == h { OwnSponsorClaim(l.docs, w.chain, s, h); } else { OtherSponsorClaim(l.docs, w.chain, s, tx.hash, h); }
  }

  lemma ActionCancelClaim(w: World, l: Ledger, tx: Tx, chain: bool, h: Hash)
    requires Inv(w, l) && Validated(tx) && tx.action.CancelSponsor? && Apply(w, l, tx, chain).Some?
    ensures var d' := Apply(w, l, tx, chain).value.docs;
            Left(l.docs, h) == TakenOut(w, l, tx, h) + Left(d', h) && Promised(d', h) == Promised(l.docs, h)
  {
    var uri, t := tx.action.uri, w.chain.Now();
    if uri in l.docs.books {
      BooksOk(w, l, uri);
      assert w.chain.TimeOf(w.chain.length) == t;
      CancelClaim(l.docs, uri, t, tx.action.hash, tx.action.sponsor, h);
      CancelAmount(l.docs.books[uri], t, tx.action.hash);
    }
  }

  lemma ActionClaim(w: World, l: Ledger, tx: Tx, chain: bool, h: Hash)
    requires Inv(w, l) && Validated(tx) && Unseen(l, tx) && Apply(w, l, tx, chain).Some?
    ensures var d' := Apply(w, l, tx, chain).value.docs;
            && Left(l.docs, h) + Brought(tx, h) == TakenOut(w, l, tx, h) + Left(d', h)
            && Promised(d', h) == Promised(l.docs, h) + Brought(tx, h)
  {
    match tx.action
    case Transfer(_, _, _) =>
    case Sponsor(s) => ActionSponsorClaim(w, l, tx, chain, h);
    case CancelSponsor(sponsor, uri, hash) =>
      ActionCancelClaim(w, l, tx, chain, h);
    case UpdateStorage(storage, file, store) => SameClaim(l.docs, StorageUpdated(l.docs, file, storage, store), h);
    case UpdateAuthority(_) =>
  }

  lemma TransactionClaim(w: World, l: Ledger, tx: Tx, key: Address, h: Hash)
    requires Inv(w, l) && Validated(tx) && Unseen(l, tx) && Ready(w, l, key != "")
    requires ApplyTransaction(w, l, tx, key).Applied?
    ensures var d' := ApplyTransaction(w, l, tx, key).ledger.docs;
            && Left(l.docs, h) + Brought(tx, h) == TakenOut(w, l, tx, h) + Left(d', h)
            && Promised(d', h) == Promised(l.docs, h) + Brought(tx, h)
  {
    DocsAfter(w, l, tx, key);
    ActionClaim(w, l, tx, key != "", h);
  }

  function BroughtAll(txs: seq<Tx>, h: Hash): Amount {
    if txs == [] then 0 else Brought(txs[0], h) + BroughtAll(txs[1..], h)
  }

  ghost function TakenOutAll(w: World, l: Ledger, txs: seq<Tx>, key: Address, h: Hash): Amount
    requires AllApplied(w, l, txs, key)
    decreases |txs|
  {
    if txs == [] then 0
    else TakenOut(w, l, txs[0], h) + TakenOutAll(w, ApplyTransaction(w, l, txs[0], key).ledger, txs[1..], key, h)
  }

  lemma {:induction false} TransactionsClaim(w: World, l: Ledger, txs: seq<Tx>, key: Address, h: Hash)
    requires AllApplied(w, l, txs, key)
    ensures var d' := ApplyAll(w, l, txs, key).docs;
            && Left(l.docs, h) + BroughtAll(txs, h) == TakenOutAll(w, l, txs, key, h) + Left(d', h)
            && Promised(d', h) == Promised(l.docs, h) + BroughtAll(txs, h)
    decreases |txs|
  {
    if txs == [] {
    } else {
      TransactionClaim(w, l, txs[0], key, h);
      TransactionsClaim(w, ApplyTransaction(w, l, txs[0], key).ledger, txs[1..], key, h);
    }
  }

  // ----- What a block returns for cancellations -----

  // The entry is read for every cancellation in the block, whether it took effect or not.
  function ReturnedFor(d: Docs, txs: seq<Tx>, h: Hash): Amount {
    if txs == [] then 0
    else (if txs[0].action.CancelSponsor? && txs[0].action.hash == h then ManualOf(d, txs[0]) else 0) + ReturnedFor(d, txs[1..], h)
  }

  // What is returned for cancellations without an effect.
  ghost function RepeatedFor(w: World, l: Ledger, txs: seq<Tx>, key: Address, d: Docs, h: Hash): Amount
    requires AllApplied(w, l, txs, key)
    decreases |txs|
  {
    if txs == [] then 0
    else
      (if txs[0].action.CancelSponsor? && txs[0].action.hash == h && !TookEffect(w, l, txs[0]) then ManualOf(d, txs[0]) else 0)
      + RepeatedFor(w, ApplyTransaction(w, l, txs[0], key).ledger, txs[1..], key, d, h)
  }

  lemma {:induction false} ReturnsSplit(w: World, l: Ledger, txs: seq<Tx>, key: Address, h: Hash)
    requires AllApplied(w, l, txs, key)
    ensures var d := ApplyAll(w, l, txs, key).docs;
            ReturnedFor(d, txs, h) == TakenOutAll(w, l, txs, key, h) + RepeatedFor(w, l, txs, key, d, h)
    decreases |txs|
  {
    if txs == [] {
    } else {
      var l1 := ApplyTransaction(w, l, txs[0], key).ledger;
      TransactionSettles(w, l, txs[0], key);
      RunSettlesEntries(w, l1, txs[1..], key);
      ReturnsSplit(w, l1, txs[1..], key, h);
    }
  }

  // ----- Grants -----

  // Only the unit the sponsorship belongs to pays it.
  lemma {:induction false} UsesPaid(d: Docs, t: int, uris: seq<Uri>, u: Uri, h: Hash)
    requires AllOk(d, t) && Distinct(uris)
    requires forall v <- uris :: v != u ==> h !in UsesPayOne(d, t, v)
    ensures Paid(UsesPay(d, t, uris), h) == if u in uris then Paid(UsesPayOne(d, t, u), h) else 0
  {
    if uris == [] {
    } else {
      var init, last := uris[..|uris| - 1], uris[|uris| - 1];
      ElementsOfPrefix(uris);
      assert uris == init + [last];
      assert forall v <- init :: v in uris;
      UsesPaid(d, t, init, u, h);
    }
  }

  lemma {:induction false} ExpiriesPaid(d: Docs, t: int, due: seq<(Uri, Hash)>, p: (Uri, Hash), h: Hash)
    requires AllOk(d, t) && Distinct(due)
    requires forall q <- due :: q != p ==> h !in ExpiryPays(d, t, q)
    ensures Paid(ExpiriesPay(d, t, due), h) == if p in due then Paid(ExpiryPays(d, t, p), h) else 0
  {
    if due == [] {
    } else {
      var init, last := due[..|due| - 1], due[|due| - 1];
      ElementsOfPrefix(due);
      assert due == init + [last];
      assert forall q <- init :: q in due;
      ExpiriesPaid(d, t, init, p, h);
    }
  }

  // A book pays only its own sponsorships.
  lemma UsePaysOwn(d: Docs, t: int, u: Uri, h: Hash)
    requires OkEntries(d) && AllOk(d, t) && h in UsesPayOne(d, t, u)
    ensures u in d.books && Position(d.books[u], h).Some? && HasExpiry(d, h) && Home(d, h) == u
  {
    if Position(d.books[u], h).None? { NothingPaid(d.books[u], Use(t), h); ScanHashes(d.books[u], t, ""); }
    OnlyAtHome(d, u, h);
  }

  lemma ExpiryPaysOwn(d: Docs, t: int, p: (Uri, Hash), h: Hash)
    requires OkEntries(d) && AllOk(d, t) && p.1 != "" && h in ExpiryPays(d, t, p)
    ensures p.1 == h && p.0 in d.books && Position(d.books[p.0], h).Some? && HasExpiry(d, h) && Home(d, h) == p.0
  {
    CancelPaysOne(d.books[p.0], t, p.1);
    OnlyAtHome(d, p.0, h);
  }

  // What an early use of its unit loses for the sponsorship.
  ghost function LostFor(d: Docs, t: int, viewed: seq<Uri>, h: Hash): Amount {
    if Booked(d, h) && Home(d, h) in viewed then LostBy(d.books[Home(d, h)], t, h) else 0
  }

  lemma UnmarkedClaim(b: Book, t: int, hashes: set<Hash>, h: Hash)
    requires Ok(b) && h !in hashes
    ensures Ok(MarkSet(b, t, hashes)) && RestOf(MarkSet(b, t, hashes), h) == RestOf(b, h) && AmountOf(MarkSet(b, t, hashes), h) == AmountOf(b, h)
  {
    MarkSetIsOk(b, t, hashes);
    MarkedPosition(b, t, hashes, h);
  }

  lemma MarkedPosition(b: Book, t: int, hashes: set<Hash>, h: Hash)
    requires Ok(b)
    ensures Ok(MarkSet(b, t, hashes)) && Position(MarkSet(b, t, hashes), h) == Position(b, h)
  {
    MarkSetIsOk(b, t, hashes);
    if Position(b, h).Some? {
      var i := Position(b, h).value;
      assert MarkSet(b, t, hashes).items[i].(cancelled := false).hash == b.items[i].(cancelled := false).hash;
      PositionIs(MarkSet(b, t, hashes), h, i);
    } else {
      forall i | 0 <= i < |b.items| ensures MarkSet(b, t, hashes).items[i].hash != h {
        assert MarkSet(b, t, hashes).items[i].(cancelled := false).hash == b.items[i].(cancelled := false).hash;
      }
    }
  }

  lemma MarkedClaim(b: Book, t: int, hashes: set<Hash>, h: Hash)
    requires Ok(b) && h in hashes && h != ""
    requires h in CancelPays(b, t, h) ==> !IsCancelled(b, h)
    ensures Ok(MarkSet(b, t, hashes)) && RestOf(b, h) == Paid(CancelPays(b, t, h), h) + RestOf(MarkSet(b, t, hashes), h)
    ensures AmountOf(MarkSet(b, t, hashes), h) == AmountOf(b, h)
  {
    MarkedPosition(b, t, hashes, h);
    MarkSetIsOk(b, t, hashes);
    CancelPaysOne(b, t, h);
    if Position(b, h).Some? {
      var i := Position(b, h).value;
      if b.items[i].cancelled {
        Settlement.FlagStays(b, t, hashes, i);
      } else {
        Settlement.MarkedLikeCancelled(b, t, hashes, i);
        CancelSettles(b, t, h, i);
        Settlement.RemainingOfItem(MarkSet(b, t, hashes), Cancelled(b, t, h, true), i);
      }
    }
  }

  lemma EffectClaim(b: Book, t: int, used: bool, hashes: set<Hash>, h: Hash)
    requires Ok(b) && Fresh(b, t) && h != ""
    requires !used && h in hashes && h in CancelPays(b, t, h) ==> !IsCancelled(b, h)
    ensures var b' := BookEffect(b, t, used, hashes);
            && Ok(b') && AmountOf(b', h) == AmountOf(b, h)
            && RestOf(b, h) == (if used then Paid(UsePays(b, t), h) + LostBy(b, t, h)
                                else if h in hashes then Paid(CancelPays(b, t, h), h) else 0) + RestOf(b', h)
  {
    if used { StepClaim(b, Use(t), h); }
    else if h in hashes { MarkedClaim(b, t, hashes, h); }
    else { UnmarkedClaim(b, t, hashes, h); }
  }

  lemma UsesOwn(d: Docs, t: int, viewed: seq<Uri>, h: Hash)
    requires OkEntries(d) && AllOk(d, t) && Distinct(viewed)
    ensures Paid(UsesPay(d, t, viewed), h) ==
            if Booked(d, h) && Home(d, h) in viewed then Paid(UsePays(d.books[Home(d, h)], t), h) else 0
  {
    var u := if HasExpiry(d, h) then Home(d, h) else "";
    forall v | v in viewed && h in UsesPayOne(d, t, v) ensures v == u && Booked(d, h) { UsePaysOwn(d, t, v, h); }
    UsesPaid(d, t, viewed, u, h);
  }

  lemma ExpiriesOwn(d: Docs, t: int, due: seq<(Uri, Hash)>, h: Hash)
    requires OkEntries(d) && AllOk(d, t) && Distinct(due) && Nameable(due)
    ensures Paid(ExpiriesPay(d, t, due), h) ==
            if Booked(d, h) && (Home(d, h), h) in due then Paid(CancelPays(d.books[Home(d, h)], t, h), h) else 0
  {
    var p := (if HasExpiry(d, h) then Home(d, h) else "", h);
    forall q | q in due && h in ExpiryPays(d, t, q) ensures q == p && Booked(d, h) { ExpiryPaysOwn(d, t, q, h); }
    ExpiriesPaid(d, t, due, p, h);
  }

  lemma DueHashes(due: seq<(Uri, Hash)>, u: Uri, h: Hash)
    ensures h in HashesOf(Elements(due), u) <==> (u, h) in due
  {
    if (u, h) in due { assert (u, h) in Elements(due); }
  }

  lemma EffectLeft(d: Docs, t: int, viewed: seq<Uri>, due: seq<(Uri, Hash)>, h: Hash)
    requires AllOk(d, t) && Booked(d, h) && h != ""
    requires (Home(d, h), h) in due ==> Open(d, t, (Home(d, h), h)) && Home(d, h) !in viewed
    ensures var b, d' := d.books[Home(d, h)], Effect(d, t, Elements(viewed), Elements(due));
            && Promised(d', h) == Promised(d, h)
            && Left(d, h) == Left(d', h) + (if Home(d, h) in viewed then Paid(UsePays(b, t), h) + LostBy(b, t, h)
                                            else if (Home(d, h), h) in due then Paid(CancelPays(b, t, h), h) else 0)
  {
    var u := Home(d, h);
    DueHashes(due, u, h);
    EffectBooks(d, t, Elements(viewed), Elements(due), u);
    EffectClaim(d.books[u], t, u in Elements(viewed), HashesOf(Elements(due), u), h);
  }

  lemma EffectLoses(d: Docs, t: int, viewed: seq<Uri>, due: seq<(Uri, Hash)>, h: Hash)
    requires AllOk(d, t) && h != ""
    requires forall u :: (u, h) in due ==> Open(d, t, (u, h)) && u !in viewed
    ensures var d' := Effect(d, t, Elements(viewed), Elements(due));
            && Promised(d', h) == Promised(d, h)
            && Left(d, h) == (if Booked(d, h) && Home(d, h) in viewed then Paid(UsePays(d.books[Home(d, h)], t), h) else 0)
                             + (if Booked(d, h) && (Home(d, h), h) in due then Paid(CancelPays(d.books[Home(d, h)], t, h), h) else 0)
                             + LostFor(d, t, viewed, h) + Left(d', h)
  {
    if Booked(d, h) { EffectLeft(d, t, viewed, due, h); }
  }

  // What the grants of a block pay the sponsorship.
  lemma GrantPaid(d: Docs, c: Chain, viewed: seq<Uri>, due: seq<(Uri, Hash)>, h: Hash)
    requires OkEntries(d) && OkTable(d) && AllOk(d, c.Now()) && Distinct(viewed) && DueList(d, c.length, viewed, due)
    requires GrantDocs(d, c, viewed, due, Forward).Some?
    ensures var (uses, expiries) := GrantDocs(d, c, viewed, due, Forward).value;
            && expiries.docs == Effect(d, c.Now(), Elements(viewed), Elements(due))
            && Paid(uses.pays, h) == (if Booked(d, h) && Home(d, h) in viewed then Paid(UsePays(d.books[Home(d, h)], c.Now()), h) else 0)
            && Paid(expiries.pays, h) == (if Booked(d, h) && (Home(d, h), h) in due then Paid(CancelPays(d.books[Home(d, h)], c.Now(), h), h) else 0)
    ensures forall u :: (u, h) in due ==> Open(d, c.Now(), (u, h)) && u !in viewed
  {
    DueFacts(d, c.length, viewed, due);
    GrantForward(d, c, c.Now(), viewed, due);
    UsesOwn(d, c.Now(), viewed, h);
    ExpiriesOwn(d, c.Now(), due, h);
  }

  // The grants of a block: uses, then expirations.
  lemma GrantClaim(d: Docs, c: Chain, viewed: seq<Uri>, due: seq<(Uri, Hash)>, h: Hash)
    requires OkEntries(d) && OkTable(d) && AllOk(d, c.Now()) && Distinct(viewed) && DueList(d, c.length, viewed, due)
    requires GrantDocs(d, c, viewed, due, Forward).Some? && h != ""
    ensures var (uses, expiries) := GrantDocs(d, c, viewed, due, Forward).value;
            && Left(d, h) == Paid(uses.pays, h) + Paid(expiries.pays, h) + LostFor(d, c.Now(), viewed, h) + Left(expiries.docs, h)
            && Promised(expiries.docs, h) == Promised(d, h)
  {
    GrantPaid(d, c, viewed, due, h);
    EffectLoses(d, c.Now(), viewed, due, h);
  }

  // ----- Blocks -----

  // What a block pays for the sponsorship: slices, the rest at its expiration, returns for
  // cancellations.  These are the amounts its reward list is made of.
  ghost function PaidInBlock(w: World, l: Ledger, blk: Block, h: Hash): Amount
    requires Takes(w, l, blk)
  {
    var d := ApplyAll(w, l, blk.txs, blk.miner).docs;
    var grants := GrantDocs(d, w.chain, Viewed(w, blk), DueIn(w, d, blk), Forward);
    if grants.None? then 0 else Paid(grants.value.0.pays, h) + Paid(grants.value.1.pays, h) + ReturnedFor(d, blk.txs, h)
  }

  ghost function LostInBlock(w: World, l: Ledger, blk: Block, h: Hash): Amount
    requires Takes(w, l, blk)
  {
    LostFor(ApplyAll(w, l, blk.txs, blk.miner).docs, w.chain.Now(), Viewed(w, blk), h)
  }

  ghost function RepeatedInBlock(w: World, l: Ledger, blk: Block, h: Hash): Amount
    requires Takes(w, l, blk)
  {
    RepeatedFor(w, l, blk.txs, blk.miner, ApplyAll(w, l, blk.txs, blk.miner).docs, h)
  }

  lemma RewardedClaim(w: World, table: seq<Amount>, l: Ledger, blk: Block, h: Hash)
    requires Inv(w, l) && AllOk(l.docs, w.chain.Now()) && Rewarded(w, table, l, blk).Some? && h != ""
    ensures var grants := GrantDocs(l.docs, w.chain, Viewed(w, blk), DueIn(w, l.docs, blk), Forward);
            var d' := Rewarded(w, table, l, blk).value.docs;
            && grants.Some? && d' == grants.value.1.docs
            && Left(l.docs, h) == Paid(grants.value.0.pays, h) + Paid(grants.value.1.pays, h)
                                  + LostFor(l.docs, w.chain.Now(), Viewed(w, blk), h) + Left(d', h)
            && Promised(d', h) == Promised(l.docs, h)
  {
    GrantParts(w, table, l.docs, blk, DueIn(w, l.docs, blk), Forward);
    GrantClaim(l.docs, w.chain, Viewed(w, blk), DueIn(w, l.docs, blk), h);
  }

  // One block: what was owed and what is newly sponsored is paid, lost or still owed; only
  // repeated cancellations pay more.
  lemma BlockClaim(w: World, table: seq<Amount>, l: Ledger, blk: Block, h: Hash)
    requires Takes(w, l, blk) && ApplyBlock(w, table, l, blk).Some? && h != ""
    ensures var d' := ApplyBlock(w, table, l, blk).value.docs;
            && Left(d', h) + PaidInBlock(w, l, blk, h) + LostInBlock(w, l, blk, h)
               == Left(l.docs, h) + BroughtAll(blk.txs, h) + RepeatedInBlock(w, l, blk, h)
            && Promised(d', h) == Promised(l.docs, h) + BroughtAll(blk.txs, h)
  {
    var l1 := ApplyAll(w, l, blk.txs, blk.miner);
    RevertAllUndoes(w, l, blk.txs, blk.miner);
    InvIsAllOk(w, l1);
    TransactionsClaim(w, l, blk.txs, blk.miner, h);
    ReturnsSplit(w, l, blk.txs, blk.miner, h);
    RewardedClaim(w, table, l1, blk, h);
  }

  // ----- The expiry block -----

  // The one case in which the expiry block leaves something: the unit is not viewed, and the
  // start of its first sponsor, its only time point, is still ahead.
  ghost predicate Waits(w: World, l: Ledger, blk: Block, h: Hash)
    requires Takes(w, l, blk)
  {
    var d := ApplyAll(w, l, blk.txs, blk.miner).docs;
    && Booked(d, h) && Home(d, h) !in Viewed(w, blk)
    && w.chain.Now() <= d.books[Home(d, h)].Last() && !IsCancelled(d.books[Home(d, h)], h)
  }

  lemma EffectPosition(b: Book, t: int, used: bool, hashes: set<Hash>, h: Hash)
    requires Ok(b) && Fresh(b, t)
    ensures Ok(BookEffect(b, t, used, hashes)) && Position(BookEffect(b, t, used, hashes), h) == Position(b, h)
  {
    if used { AfterPosition(b, Use(t), h); } else { MarkedPosition(b, t, hashes, h); }
  }

  lemma GrantPosition(d: Docs, c: Chain, viewed: seq<Uri>, due: seq<(Uri, Hash)>, h: Hash)
    requires OkTable(d) && AllOk(d, c.Now()) && Distinct(viewed) && DueList(d, c.length, viewed, due)
    requires GrantDocs(d, c, viewed, due, Forward).Some? && Booked(d, h)
    ensures var d' := GrantDocs(d, c, viewed, due, Forward).value.1.docs;
            Booked(d', h) && Home(d', h) == Home(d, h) && Position(d'.books[Home(d, h)], h) == Position(d.books[Home(d, h)], h)
  {
    GrantEffect(d, c, viewed, due);
    EffectBooks(d, c.Now(), Elements(viewed), Elements(due), Home(d, h));
    EffectPosition(d.books[Home(d, h)], c.Now(), Home(d, h) in Elements(viewed), HashesOf(Elements(due), Home(d, h)), h);
  }

  lemma IsCancelledAt(b: Book, h: Hash, i: nat)
    requires Ok(b) && i < |b.items| && b.items[i].hash == h
    ensures IsCancelled(b, h) <==> b.items[i].cancelled
  {}

  lemma ExpiryClaim(d: Docs, c: Chain, viewed: seq<Uri>, due: seq<(Uri, Hash)>, h: Hash)
    requires OkEntries(d) && OkTable(d) && InTime(d, c) && AllOk(d, c.Now()) && Distinct(viewed) && DueList(d, c.length, viewed, due)
    requires GrantDocs(d, c, viewed, due, Forward).Some? && h != "" && h in d.blockOf && d.blockOf[h] == c.length
    ensures Left(GrantDocs(d, c, viewed, due, Forward).value.1.docs, h) ==
            if Booked(d, h) && Home(d, h) !in viewed && c.Now() <= d.books[Home(d, h)].Last() && !IsCancelled(d.books[Home(d, h)], h)
            then Left(d, h) else 0
  {
    GrantClaim(d, c, viewed, due, h);
    if Booked(d, h) && Position(d.books[Home(d, h)], h).Some? {
      var u := Home(d, h);
      var i := Position(d.books[u], h).value;
      GrantPosition(d, c, viewed, due, h);
      IsCancelledAt(d.books[u], h, i);
      Settlement.ExpiryBlockSettles(d, c, viewed, due, u, i);
    }
  }

  // After the block a sponsorship expires in it is owed nothing - unless it waits.
  lemma ExpiryBlockClaim(w: World, table: seq<Amount>, l: Ledger, blk: Block, h: Hash)
    requires Takes(w, l, blk) && ApplyBlock(w, table, l, blk).Some? && h != ""
    requires var d' := ApplyBlock(w, table, l, blk).value.docs; h in d'.blockOf && d'.blockOf[h] == w.chain.length
    ensures Left(ApplyBlock(w, table, l, blk).value.docs, h) ==
            if Waits(w, l, blk, h) then Left(ApplyAll(w, l, blk.txs, blk.miner).docs, h) else 0
  {
    var l1 := ApplyAll(w, l, blk.txs, blk.miner);
    RevertAllUndoes(w, l, blk.txs, blk.miner);
    InvIsAllOk(w, l1);
    GrantsKeepTable(w, table, l, blk);
    var due := DueIn(w, l1.docs, blk);
    GrantParts(w, table, l1.docs, blk, due, Forward);
    ExpiryClaim(l1.docs, w.chain, Viewed(w, blk), due, h);
  }

  // ----- Many blocks -----

  ghost function PaidAt(h: Hash): (Point, Block) -> Amount {
    (p: Point, blk: Block) => if Takes(p.world, p.ledger, blk) then PaidInBlock(p.world, p.ledger, blk, h) else 0
  }

  ghost function LostAtUse(h: Hash): (Point, Block) -> Amount {
    (p: Point, blk: Block) => if Takes(p.world, p.ledger, blk) then LostInBlock(p.world, p.ledger, blk, h) else 0
  }

  ghost function RepeatedAt(h: Hash): (Point, Block) -> Amount {
    (p: Point, blk: Block) => if Takes(p.world, p.ledger, blk) then RepeatedInBlock(p.world, p.ledger, blk, h) else 0
  }

  function BroughtAt(h: Hash): (Point, Block) -> Amount {
    (_: Point, blk: Block) => BroughtAll(blk.txs, h)
  }

  ghost function LeftAt(h: Hash): Point -> Amount {
    (p: Point) => Left(p.ledger.docs, h)
  }

  ghost function PromisedAt(h: Hash): Point -> Amount {
    (p: Point) => Promised(p.ledger.docs, h)
  }

  lemma ClaimOfOne(table: seq<Amount>, p: Point, blk: Block, h: Hash)
    requires Accepting(table)(p, blk).Some? && h != ""
    ensures var p' := Accepting(table)(p, blk).value;
            && LeftAt(h)(p') + PaidAt(h)(p, blk) + LostAtUse(h)(p, blk) == LeftAt(h)(p) + BroughtAt(h)(p, blk) + RepeatedAt(h)(p, blk)
            && PromisedAt(h)(p') == PromisedAt(h)(p) + BroughtAt(h)(p, blk)
  {
    BlockClaim(p.world, table, p.ledger, blk, h);
  }

  // Over any chain of blocks.
  lemma ChainClaim(table: seq<Amount>, p: Point, blocks: seq<Block>, h: Hash)
    requires ApplyChain(table, p, blocks).Some? && h != ""
    ensures var q := ApplyChain(table, p, blocks).value;
            && Left(q.ledger.docs, h) + Along(table, p, blocks, PaidAt(h)) + Along(table, p, blocks, LostAtUse(h))
               == Left(p.ledger.docs, h) + Along(table, p, blocks, BroughtAt(h)) + Along(table, p, blocks, RepeatedAt(h))
            && Promised(q.ledger.docs, h) == Promised(p.ledger.docs, h) + Along(table, p, blocks, BroughtAt(h))
  {
    forall m, b | Accepting(table)(m, b).Some?
      ensures LeftAt(h)(Accepting(table)(m, b).value) + PaidAt(h)(m, b) + LostAtUse(h)(m, b)
              == LeftAt(h)(m) + BroughtAt(h)(m, b) + RepeatedAt(h)(m, b)
      ensures PromisedAt(h)(Accepting(table)(m, b).value) == PromisedAt(h)(m) + BroughtAt(h)(m, b)
    {
      ClaimOfOne(table, m, b, h);
    }
    Runs.RunBalances(Accepting(table), LeftAt(h), BroughtAt(h), RepeatedAt(h), PaidAt(h), LostAtUse(h), p, blocks);
    Runs.RunAdds(Accepting(table), PromisedAt(h), BroughtAt(h), p, blocks);
  }

  // From before it is made to the block it expires in, a sponsorship is paid its amount: less
  // what early uses lose and what still waits, more what repeated cancellations return.
  lemma SponsorshipIsSettled(table: seq<Amount>, p: Point, blocks: seq<Block>, last: Block, h: Hash)
    requires ApplyChain(table, p, blocks + [last]).Some? && h != "" && h !in p.ledger.docs.blockOf
    requires var d := ApplyChain(table, p, blocks + [last]).value.ledger.docs;
             h in d.blockOf && d.blockOf[h] == p.world.chain.length + |blocks|
    ensures ApplyChain(table, p, blocks).Some?
    ensures var d := ApplyChain(table, p, blocks + [last]).value.ledger.docs;
            var m := ApplyChain(table, p, blocks).value;
            var all := blocks + [last];
            && Along(table, p, all, PaidAt(h)) + Along(table, p, all, LostAtUse(h)) + Left(d, h)
               == Promised(d, h) + Along(table, p, all, RepeatedAt(h))
            && Takes(m.world, m.ledger, last)
            && Left(d, h) == if Waits(m.world, m.ledger, last, h)
                             then Left(ApplyAll(m.world, m.ledger, last.txs, last.miner).docs, h) else 0
  {
    var all := blocks + [last];
    assert all[..|blocks|] == blocks;
    ChainClaim(table, p, all, h);
    ChainGrows(table, p, blocks);
    var m := ApplyChain(table, p, blocks).value;
    ExpiryBlockClaim(m.world, table, m.ledger, last, h);
  }
}
