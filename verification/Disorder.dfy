/**
 Exactly which blocks can be undone, for every library sort.  Undoing a use scans again
 without asking whether time had moved on; what it then reports depends on where the sort
 leaves entries that wait equally long.
 */
module Disorder {
  import opened Basics
  import opened Totals
  import opened Rewards
  import opened Sponsorship
  import opened Books
  import opened SponsorIndex
  import opened DocumentValues
  import opened BlockDocs
  import opened BlockRewards
  import opened Transactions
  import opened Blocks
  import opened Forks
  import Collecting
  import Runs

  // ----- What undoing a use reports -----

  lemma PositiveTotal(m: map<Hash, Payment>)
    requires m != map[] && forall h <- m :: m[h].amount > 0
    ensures Total(Amounts(m)) > 0
  {
    var h :| h in m;
    assert Lookup(Amounts(m), h) == m[h].amount;
    TotalSet(Amounts(m), h, 0);
  }

  lemma CollectedPositive(b: Book, t: int, order: seq<nat>)
    requires Ok(b) && ScanTime(b, t) && Collecting.InRange(order, |b.items|)
    ensures var m := Collecting.Collect(Hashes(b), Lines(b, t, ""), order); forall h <- m :: m[h].amount > 0
  {
    var m := Collecting.Collect(Hashes(b), Lines(b, t, ""), order);
    Collecting.CollectHas(Hashes(b), Lines(b, t, ""), order);
    forall h | h in m ensures m[h].amount > 0 {
      var i :| i in order && Lines(b, t, "")[i].Some? && Hashes(b)[i] == h;
      assert Line(b, i, t, "").Some?;
    }
  }

  lemma FastPositive(b: Book, t: int, index: seq<nat>)
    requires Ok(b) && ScanTime(b, t) && Collecting.InRange(index, |b.items|)
    ensures var m := FastScan(b, t, "", index); forall h <- m :: m[h].amount > 0
  {
    var order := index[..Reached(b, t, index)];
    CollectedPositive(b, t, order);
    assert FastScan(b, t, "", index) == Collecting.Collect(Hashes(b), Lines(b, t, ""), order);
  }

  lemma UndoPositive(b: Book, t: int, sort: Sort)
    requires Ok(b) && ScanTime(b, t)
    ensures var m := UndoPays(b, t, sort); forall h <- m :: m[h].amount > 0
  {
    FastPositive(b, t, Rebuilt(b, sort));
  }

  // It is at least what the use paid, and exactly that if the use was orderly.
  lemma OneReportsMore(d: Docs, t: int, uri: Uri, sort: Sort)
    requires uri in d.books ==> Ok(d.books[uri]) && Fresh(d.books[uri], t)
    ensures Total(Amounts(UndoPaysOne(d, t, uri, sort))) >= Total(Amounts(UsesPayOne(d, t, uri)))
    ensures Total(Amounts(UndoPaysOne(d, t, uri, sort))) == Total(Amounts(UsesPayOne(d, t, uri))) <==> Orderly(d, t, uri, sort)
  {
    EmptyAmounts();
    OrderlyReports(d, t, uri, sort);
    if uri in d.books && t <= d.books[uri].Last() {
      UndoPositive(d.books[uri], t, sort);
      if UndoPays(d.books[uri], t, sort) != map[] { PositiveTotal(UndoPays(d.books[uri], t, sort)); }
    }
  }

  lemma LastUse(d: Docs, c: Chain, t: int, uris: seq<Uri>)
    requires AllOk(d, t) && t == c.Now() && Distinct(uris) && uris != [] && UseAll(d, c, uris, Forward).Some?
    ensures var init, last := uris[..|uris| - 1], uris[|uris| - 1];
            && UseAll(d, c, init, Forward).Some?
            && Total(Amounts(UsesPay(d, t, uris))) == Total(Amounts(UsesPay(d, t, init))) + Total(Amounts(UsesPayOne(d, t, last)))
  {
    var init, last := uris[..|uris| - 1], uris[|uris| - 1];
    ElementsOfPrefix(uris);
    UseAllForward(d, c, t, init);
    UseStepForward(d, c, t, Elements(init), last);
    TotalUnion(UsesPay(d, t, init), UsesPayOne(d, t, last));
  }

  // All uses of a block undone.
  lemma {:induction false} AllReportMore(d: Docs, c: Chain, t: int, used: set<Uri>, due: set<(Uri, Hash)>, uris: seq<Uri>, sort: Sort)
    requires AllOk(d, t) && t == c.Now() && Distinct(uris) && Elements(uris) <= used
    requires forall u <- uris :: HashesOf(due, u) == {}
    requires UseAll(d, c, uris, Forward).Some? && UseAll(Effect(d, t, used, due), c, uris, Backward(sort)).Some?
    ensures var r := UseAll(Effect(d, t, used, due), c, uris, Backward(sort)).value;
            && r.docs == Effect(d, t, used - Elements(uris), due)
            && Total(Amounts(r.pays)) >= Total(Amounts(UsesPay(d, t, uris)))
            && (Total(Amounts(r.pays)) == Total(Amounts(UsesPay(d, t, uris))) <==> AllOrderly(d, t, uris, sort))
  {
    if uris == [] {
      assert used - Elements(uris) == used;
    } else {
      var init, last := uris[..|uris| - 1], uris[|uris| - 1];
      ElementsOfPrefix(uris);
      assert uris == init + [last];
      LastUse(d, c, t, uris);
      AllReportMore(d, c, t, used, due, init, sort);
      UseStepBackward(d, c, t, used - Elements(init), due, last, sort);
      OneReportsMore(d, t, last, sort);
      TotalUnion(UseAll(Effect(d, t, used, due), c, init, Backward(sort)).value.pays, UndoPaysOne(d, t, last, sort));
      assert used - Elements(init) - {last} == used - Elements(uris);
    }
  }

  // ----- The grants of a block -----

  // Undone with something out of order, they report other payments than the block made.
  lemma GrantReportsMore(d: Docs, c: Chain, viewed: seq<Uri>, due: seq<(Uri, Hash)>, due': seq<(Uri, Hash)>, sort: Sort)
    requires AllOk(d, c.Now()) && OkTable(d) && Distinct(viewed) && !AllOrderly(d, c.Now(), viewed, sort)
    requires DueList(d, c.length, viewed, due) && GrantDocs(d, c, viewed, due, Forward).Some?
    requires var e := GrantDocs(d, c, viewed, due, Forward).value.1.docs;
             DueList(e, c.length, viewed, due') && GrantDocs(e, c, viewed, due', Backward(sort)).Some?
    ensures var there := GrantDocs(d, c, viewed, due, Forward).value;
            var back := GrantDocs(there.1.docs, c, viewed, due', Backward(sort)).value;
            && Total(Amounts(back.0.pays)) > Total(Amounts(there.0.pays)) && back.1.pays == there.1.pays
  {
    var t, all, e := c.Now(), Elements(due), GrantDocs(d, c, viewed, due, Forward).value.1.docs;
    GrantEffect(d, c, viewed, due);
    DueFacts(d, c.length, viewed, due);
    GrantForward(d, c, t, viewed, due);
    DueAfter(d, e, c.length, viewed, due, due');
    forall u | u in viewed ensures HashesOf(all, u) == {} { assert forall p <- all :: p in due && p.0 != u; }
    AllReportMore(d, c, t, Elements(viewed), all, viewed, sort);
    assert Elements(viewed) - Elements(viewed) == {};
    ExpiriesUndone(d, c, t, due, due', sort);
  }

  lemma ExpiriesUndone(d: Docs, c: Chain, t: int, due: seq<(Uri, Hash)>, due': seq<(Uri, Hash)>, sort: Sort)
    requires AllOk(d, t) && t == c.Now() && Distinct(due') && Nameable(due) && Nameable(due') && Elements(due) == Elements(due')
    requires forall p, q :: p in due && q in due && p.1 == q.1 ==> p == q
    requires forall p <- due :: Open(d, t, p)
    ensures ExpireAll(Effect(d, t, {}, Elements(due)), c, due', Backward(sort)).Some?
    ensures ExpireAll(Effect(d, t, {}, Elements(due)), c, due', Backward(sort)).value.pays == ExpiriesPay(d, t, due)
  {
    forall p | p in due' ensures Open(d, t, p) { assert p in Elements(due'); assert p in due; }
    ExpireAllBackward(d, c, t, Elements(due), due', sort);
    ExpiriesAgree(d, t, due, due');
  }

  lemma GrantDiffers(w: World, table: seq<Amount>, d: Docs, blk: Block, due: seq<(Uri, Hash)>, due': seq<(Uri, Hash)>)
    requires OkTable(d) && AllOk(d, w.chain.Now()) && !AllOrderly(d, w.chain.Now(), Viewed(w, blk), w.sort)
    requires DueList(d, w.chain.length, Viewed(w, blk), due) && Grant(w, table, d, blk, due, Forward).Some?
    requires DueList(Grant(w, table, d, blk, due, Forward).value.0, w.chain.length, Viewed(w, blk), due')
    ensures var there := Grant(w, table, d, blk, due, Forward).value;
            var back := Grant(w, table, there.0, blk, due', Backward(w.sort));
            back.Some? ==> back.value.1 != there.1
  {
    var there := Grant(w, table, d, blk, due, Forward).value;
    GrantParts(w, table, d, blk, due, Forward);
    if Grant(w, table, there.0, blk, due', Backward(w.sort)).Some? {
      GrantParts(w, table, there.0, blk, due', Backward(w.sort));
      GrantEffect(d, w.chain, Viewed(w, blk), due);
      CancelReturnsSame(d, there.0, blk.txs);
      GrantReportsMore(d, w.chain, Viewed(w, blk), due, due', w.sort);
      ListsDiffer(w, table, d, there.0, blk, due, due', Backward(w.sort));
    }
  }

  lemma ListsDiffer(w: World, table: seq<Amount>, d: Docs, e: Docs, blk: Block, due: seq<(Uri, Hash)>, due': seq<(Uri, Hash)>, dir: Direction)
    requires Shares(w, blk).Some? && CancelReturns(d, blk.txs).Some? && CancelReturns(e, blk.txs) == CancelReturns(d, blk.txs)
    requires GrantDocs(d, w.chain, Viewed(w, blk), due, Forward).Some? && GrantDocs(e, w.chain, Viewed(w, blk), due', dir).Some?
    requires var there, back := GrantDocs(d, w.chain, Viewed(w, blk), due, Forward).value, GrantDocs(e, w.chain, Viewed(w, blk), due', dir).value;
             Total(Amounts(back.0.pays)) > Total(Amounts(there.0.pays)) && back.1.pays == there.1.pays
    requires Grant(w, table, d, blk, due, Forward).Some? && Grant(w, table, e, blk, due', dir).Some?
    ensures Grant(w, table, d, blk, due, Forward).value.1 != Grant(w, table, e, blk, due', dir).value.1
  {
    GrantParts(w, table, d, blk, due, Forward);
    GrantParts(w, table, e, blk, due', dir);
    var there, back := GrantDocs(d, w.chain, Viewed(w, blk), due, Forward).value, GrantDocs(e, w.chain, Viewed(w, blk), due', dir).value;
    var returned := CancelReturns(d, blk.txs).value;
    ListOfSum(Shares(w, blk).value, returned, table, w.chain.length, blk.miner, there.0.pays, there.1.pays);
    ListOfSum(Shares(w, blk).value, returned, table, w.chain.length, blk.miner, back.0.pays, back.1.pays);
  }

  // Granted again on the way back: the rewards are those of the block exactly if all uses were
  // orderly, and then the documents are those before.
  lemma GrantBackExactly(w: World, table: seq<Amount>, d: Docs, blk: Block, due: seq<(Uri, Hash)>, due': seq<(Uri, Hash)>)
    requires OkTable(d) && AllOk(d, w.chain.Now())
    requires DueList(d, w.chain.length, Viewed(w, blk), due) && Grant(w, table, d, blk, due, Forward).Some?
    requires DueList(Grant(w, table, d, blk, due, Forward).value.0, w.chain.length, Viewed(w, blk), due')
    ensures var there := Grant(w, table, d, blk, due, Forward).value;
            var back := Grant(w, table, there.0, blk, due', Backward(w.sort));
            && (back.Some? && back.value.1 == there.1 <==> AllOrderly(d, w.chain.Now(), Viewed(w, blk), w.sort))
            && (back.Some? && back.value.1 == there.1 ==> back.value.0 == d)
  {
    if AllOrderly(d, w.chain.Now(), Viewed(w, blk), w.sort) {
      GrantThereAndBack(w, table, d, blk, due, due');
    } else {
      GrantDiffers(w, table, d, blk, due, due');
    }
  }

  // ----- Blocks -----

  lemma DisorderlyBlockFails(w: World, table: seq<Amount>, l: Ledger, blk: Block)
    requires Takes(w, l, blk) && ApplyBlock(w, table, l, blk).Some? && !OrderlyBlock(w, l, blk)
    ensures RevertBlock(w, table, ApplyBlock(w, table, l, blk).value, blk).None?
  {
    var l1 := ApplyAll(w, l, blk.txs, blk.miner);
    RevertAllUndoes(w, l, blk.txs, blk.miner);
    InvIsAllOk(w, l1);
    var l2 := ApplyBlock(w, table, l, blk).value;
    GrantBackExactly(w, table, l1.docs, blk, DueIn(w, l1.docs, blk), DueIn(w, l2.docs, blk));
  }

  // An accepted block is undone, completely, if and only if all its uses were orderly under
  // the sort at hand.
  lemma RevertBlockExactly(w: World, table: seq<Amount>, l: Ledger, blk: Block)
    requires Takes(w, l, blk) && ApplyBlock(w, table, l, blk).Some?
    ensures RevertBlock(w, table, ApplyBlock(w, table, l, blk).value, blk) == if OrderlyBlock(w, l, blk) then Some(l) else None
  {
    if OrderlyBlock(w, l, blk) { RevertBlockUndoes(w, table, l, blk); } else { DisorderlyBlockFails(w, table, l, blk); }
  }

  lemma RevertOneExactly(table: seq<Amount>, p: Point, blk: Block)
    requires Accepting(table)(p, blk).Some?
    ensures Reverting(table)(Accepting(table)(p, blk).value, blk) == if OrderlyOne(p, blk) then Some(p) else None
  {
    RevertBlockExactly(p.world, table, p.ledger, blk);
    assert Previous(Next(p.world)) == p.world;
  }

  // And any chain of accepted blocks if and only if all of them were.
  lemma RevertChainExactly(table: seq<Amount>, p: Point, blocks: seq<Block>)
    requires ApplyChain(table, p, blocks).Some?
    ensures RevertChain(table, ApplyChain(table, p, blocks).value, blocks) ==
            if OrderlyChain(table, p, blocks) then Some(p) else None
  {
    forall m, b | Accepting(table)(m, b).Some?
      ensures Reverting(table)(Accepting(table)(m, b).value, b) == if OrderlyOne(m, b) then Some(m) else None
    {
      RevertOneExactly(table, m, b);
    }
    Runs.UnrunExactly(Accepting(table), Reverting(table), OrderlyOne, p, blocks);
  }
}
