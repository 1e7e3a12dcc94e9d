/**
 A block that some libraries can undo and others cannot: it uses a unit before its first time
 point.  It loses coins, too.
 */
module EarlyUse {
  import opened Basics
  import opened Ordering
  import opened Totals
  import opened Rewards
  import opened Statistics
  import opened Services
  import opened Sponsorship
  import opened Books
  import opened SponsorIndex
  import opened DocumentValues
  import opened BlockDocs
  import opened BlockRewards
  import opened Transactions
  import opened Blocks
  import opened Conservation
  import opened Disorder
  import Balances

  // Two sponsorships of an hour each; the first one starts later.
  const FIRST := Sponsoring("u", "a", 10000, 1, 3600)
  const SECOND := Sponsoring("u", "b", 0, 1, 3600)
  const EMPTY := Docs(map[], map[], map[], map[])

  const BOOK := Book([Item(3600, 10000, 13600, "a", "h1", 1, false), Item(3600, 0, 3600, "b", "h2", 1, false)], [10000])
  const DOCS := Docs(map["u" := BOOK],
                     map[23 := map["h1" := Expiry("u", "h1", 23, 0)], 6 := map["h2" := Expiry("u", "h2", 6, 0)]],
                     map["h1" := 23, "h2" := 6], map[])
  const LEDGER := Ledger(Balances.State(map[], map[]), DOCS, map[])

  // The channel and the storage agree on one view, in block 2, at the time 1200.
  const REGISTRY: Registry := Records(map["f" := ["author"]], map["u" := ContentUnit("ch", 1)])
  const ROLES: Roles := map["ch" := Role.Channel, "st" := Role.Storage]
  const VIEW := Report("ch", "f", "u", "st", 1)
  const DELIVERY := Report("st", "f", "u", "ch", 1)
  const SERVICES := [Service("ch", [CountItem("f", "u", "st", 1)]), Service("st", [CountItem("f", "u", "ch", 1)])]

  function WorldWith(sort: Sort): World {
    World(Chain(0, 2), "node", REGISTRY, {}, ROLES, sort)
  }

  function BlockWith(rewards: seq<Reward>): Block {
    Block([], SERVICES, "miner", rewards)
  }

  // The block with the rewards the code computes for it.
  ghost function Mined(sort: Sort): Block {
    var w := WorldWith(sort);
    var granted := Grant(w, [0], DOCS, BlockWith([]), DueIn(w, DOCS, BlockWith([])), Forward);
    BlockWith(if granted.Some? then granted.value.1 else [])
  }

  // Sponsoring in block 1, one after the other, leads to these documents.
  lemma DocsArise()
    ensures var d := SponsorApply(EMPTY, Chain(0, 1), FIRST, "h1");
            d.Some? && SponsorApply(d.value, Chain(0, 1), SECOND, "h2") == Some(DOCS)
  {
    var d := SponsorApply(EMPTY, Chain(0, 1), FIRST, "h1").value;
    assert ExpiringBlock(Chain(0, 1), 13600) == 23 && ExpiringBlock(Chain(0, 1), 3600) == 6;
    var b := d.books["u"];
    assert b == Book([BOOK.items[0]], [10000]);
    assert Sponsored(b, NewItem(SECOND, "h2")).items == BOOK.items;
    var d' := SponsorApply(d, Chain(0, 1), SECOND, "h2").value;
    assert d'.books["u"] == BOOK && d'.books.Keys == {"u"};
    assert d'.books == DOCS.books && d'.expiring == DOCS.expiring && d'.blockOf == DOCS.blockOf;
  }

  lemma BookIsOk()
    ensures Ok(BOOK) && Fresh(BOOK, 1200) && BOOK.Last() == 10000
  {
    assert OkItem(BOOK.items[0], 1) && OkItem(BOOK.items[1], 1);
  }

  lemma DocsAreOk()
    ensures OkDocs(DOCS, 1200) && InTime(DOCS, Chain(0, 2))
  {
    BookIsOk();
    assert OkBook(DOCS, 1200, "u");
    assert OkRow(DOCS, 23, "h1") && OkRow(DOCS, 6, "h2");
    ItemsAreOk();
  }

  lemma ItemsAreOk()
    ensures OkEntries(DOCS) && InTime(DOCS, Chain(0, 2))
  {
    assert OkEntry(DOCS, "u", BOOK.items[0]) && OkEntry(DOCS, "u", BOOK.items[1]);
    assert EndsInTime(DOCS, Chain(0, 2), BOOK.items[0]) && EndsInTime(DOCS, Chain(0, 2), BOOK.items[1]);
  }

  lemma LedgerIsOk(sort: Sort)
    ensures Inv(WorldWith(sort), LEDGER) && Ready(WorldWith(sort), LEDGER, true)
  {
    DocsAreOk();
    assert Chain(0, 2).Now() == 1200;
  }

  // ----- The view counts -----

  lemma ViewCounts()
    ensures Counted([VIEW], [DELIVERY], [VIEW]) == [VIEW]
  {
    assert [VIEW][..0] == [];
    assert ChannelCount([VIEW], "ch", "f", "st") == 1;
    assert Confirms([DELIVERY][0], [VIEW], "ch", "f", "st");
  }

  lemma OneKey()
    ensures Ascending({"u"}) == ["u"]
  {
    var keys := Ascending({"u"});
    assert |keys| == 1 && keys[0] in keys;
  }

  lemma GroupOfView()
    ensures Known(REGISTRY, [VIEW]) && Group(REGISTRY, [VIEW]).authors.Keys == {"u"}
  {
    var none: seq<Report> := [];
    assert [VIEW][..0] == none;
    assert Group(REGISTRY, none) == Groups(map[], map[], map[]);
  }

  lemma ViewedUnits(reg: Registry, reports: seq<Report>, deliveries: seq<Report>, counted: seq<Report>)
    requires Acceptable(reg, reports, deliveries) && Counted(reports, deliveries, reports) == counted && Known(reg, counted)
    ensures StatsIn(reg, reports, deliveries).Some?
    ensures StatsIn(reg, reports, deliveries).value.viewed == Ascending(Group(reg, counted).authors.Keys)
  {
    StatsAreWhole(reg, counted);
  }

  lemma StatsOfView()
    ensures StatsIn(REGISTRY, [VIEW], [DELIVERY]).Some? && StatsIn(REGISTRY, [VIEW], [DELIVERY]).value.viewed == ["u"]
  {
    ViewCounts();
    GroupOfView();
    ViewedUnits(REGISTRY, [VIEW], [DELIVERY], [VIEW]);
    OneKey();
  }

  lemma OneServer(server: Address, item: CountItem)
    ensures var m := map[server := [item]];
            Ascending(m.Keys) == [server] && ReportsFrom(m, [server]) == [Report(server, item.file, item.unit, item.peer, item.count)]
  {
    var m, keys := map[server := [item]], Ascending({server});
    assert m.Keys == {server} && |keys| == 1 && keys[0] in keys;
    assert [server][..0] == [];
  }

  lemma BothReport()
    ensures Servers(ROLES, SERVICES) && Counting(ROLES, SERVICES, Role.Channel) == [VIEW] && Counting(ROLES, SERVICES, Role.Storage) == [DELIVERY]
  {
    assert SERVICES[..1][..0] == [];
    var view, delivery := CountItem("f", "u", "st", 1), CountItem("f", "u", "ch", 1);
    assert LastReports(ROLES, SERVICES[..1], Role.Channel) == map["ch" := [view]];
    assert LastReports(ROLES, SERVICES[..1], Role.Storage) == map[];
    assert LastReports(ROLES, SERVICES, Role.Channel) == map["ch" := [view]];
    assert LastReports(ROLES, SERVICES, Role.Storage) == map["st" := [delivery]];
    OneServer("ch", view);
    OneServer("st", delivery);
  }

  lemma UnitIsViewed(sort: Sort, rewards: seq<Reward>)
    ensures Shares(WorldWith(sort), BlockWith(rewards)) == StatsIn(REGISTRY, [VIEW], [DELIVERY])
    ensures Shares(WorldWith(sort), BlockWith(rewards)).Some? && Viewed(WorldWith(sort), BlockWith(rewards)) == ["u"]
  {
    BothReport();
    StatsOfView();
  }

  // ----- The block is accepted -----

  lemma BlockIsTaken(sort: Sort, rewards: seq<Reward>)
    ensures Takes(WorldWith(sort), LEDGER, BlockWith(rewards))
    ensures ApplyAll(WorldWith(sort), LEDGER, BlockWith(rewards).txs, "miner") == LEDGER
  {
    LedgerIsOk(sort);
  }

  lemma FirstOrEmpty<T>(s: seq<T>)
    ensures s == [] || s[0] in s
  {}

  lemma NoneDue(d: Docs, block: nat, viewed: seq<Uri>, due: seq<(Uri, Hash)>)
    requires DueList(d, block, viewed, due) && block !in d.expiring
    ensures due == []
  {
    forall p ensures p !in due { assert (p.0, p.1) == p; }
    FirstOrEmpty(due);
  }

  lemma NothingDueNow(sort: Sort, rewards: seq<Reward>)
    ensures DueIn(WorldWith(sort), DOCS, BlockWith(rewards)) == []
  {
    var w, blk := WorldWith(sort), BlockWith(rewards);
    NoneDue(DOCS, w.chain.length, Viewed(w, blk), DueIn(w, DOCS, blk));
  }

  lemma UnitIsUsed()
    ensures GrantDocs(DOCS, Chain(0, 2), ["u"], [], Forward).Some?
  {
    BookIsOk();
    var none: seq<Uri> := [];
    assert ["u"][..0] == none;
    assert UseAll(DOCS, Chain(0, 2), none, Forward) == Some(Progress(DOCS, map[]));
    assert UseStep(DOCS, Chain(0, 2), "u", Forward, "").Some?;
  }

  lemma GrantIsSome(w: World, table: seq<Amount>, d: Docs, blk: Block, c: Chain, viewed: seq<Uri>, due: seq<(Uri, Hash)>)
    requires w.chain == c && Viewed(w, blk) == viewed && Shares(w, blk).Some? && blk.txs == []
    requires GrantDocs(d, c, viewed, due, Forward).Some? && Emission(table, c.length).Some?
    ensures Grant(w, table, d, blk, due, Forward).Some?
  {
    GrantOfParts(w, table, d, blk, due, Forward);
  }

  lemma SomeEmission()
    ensures Emission([0], 2).Some?
  {}

  lemma IsGranted(sort: Sort, rewards: seq<Reward>)
    ensures Grant(WorldWith(sort), [0], DOCS, BlockWith(rewards), [], Forward).Some?
  {
    UnitIsViewed(sort, rewards);
    UnitIsUsed();
    SomeEmission();
    GrantIsSome(WorldWith(sort), [0], DOCS, BlockWith(rewards), Chain(0, 2), ["u"], []);
  }

  lemma RewardsAreFree(sort: Sort, rewards: seq<Reward>)
    ensures var w := WorldWith(sort);
            Grant(w, [0], DOCS, BlockWith(rewards), [], Forward) == Grant(w, [0], DOCS, BlockWith([]), [], Forward)
  {
    var w := WorldWith(sort);
    UnitIsViewed(sort, rewards);
    UnitIsViewed(sort, []);
    assert Shares(w, BlockWith(rewards)) == Shares(w, BlockWith([]));
  }

  lemma BlockIsAccepted(sort: Sort)
    ensures Takes(WorldWith(sort), LEDGER, Mined(sort)) && ApplyBlock(WorldWith(sort), [0], LEDGER, Mined(sort)).Some?
  {
    var blk := Mined(sort);
    IsGranted(sort, []);
    NothingDueNow(sort, []);
    NothingDueNow(sort, blk.rewards);
    RewardsAreFree(sort, blk.rewards);
    BlockIsTaken(sort, blk.rewards);
  }

  // ----- It loses coins, and cannot always be undone -----

  // The second sponsorship would be owed a third of its amount.
  lemma SomethingIsDue()
    ensures Ok(BOOK) && ScanTime(BOOK, 1200) && Scan(BOOK, 1200, "") != map[]
  {
    BookIsOk();
    ScanPaid(BOOK, 1200, "", 1);
    assert Visited(BOOK, 1, 1200, "") && Slice(BOOK, 1, 1200, "") == 1200;
  }

  lemma UseLoses()
    ensures LostByUses(DOCS, 1200, ["u"]) == 1200
  {
    BookIsOk();
    assert Clamp(BOOK.items[0], 1200) == 10000 && Clamp(BOOK.items[1], 1200) == 1200;
    assert Lost(BOOK, 1200, 0) == 0 && Lost(BOOK, 1200, 1) == 1200;
    assert LostOf(BOOK, 1200, 1) == LostOf(BOOK, 1200, 0) + Lost(BOOK, 1200, 0);
    assert LostOf(BOOK, 1200, 2) == LostOf(BOOK, 1200, 1) + Lost(BOOK, 1200, 1);
    assert ["u"][..0] == [];
  }

  // The block is accepted with every sort and loses 1200.  With a sort that leaves the first
  // sponsor first it is undone; with one that lists what started before the block first, the
  // rewards recomputed for it differ and undoing it fails.
  lemma EarlyUseExample()
    ensures forall sort: Sort ::
              && Inv(WorldWith(sort), LEDGER) && Takes(WorldWith(sort), LEDGER, Mined(sort))
              && ApplyBlock(WorldWith(sort), [0], LEDGER, Mined(sort)).Some?
              && Wealth(ApplyBlock(WorldWith(sort), [0], LEDGER, Mined(sort)).value) + 1200 == Wealth(LEDGER) + EmissionOf([0], 2)
    ensures forall sort: Sort :: KeepsFirst(sort) ==>
              RevertBlock(WorldWith(sort), [0], ApplyBlock(WorldWith(sort), [0], LEDGER, Mined(sort)).value, Mined(sort)) == Some(LEDGER)
    ensures var sort := WorstSort(1200);
            RevertBlock(WorldWith(sort), [0], ApplyBlock(WorldWith(sort), [0], LEDGER, Mined(sort)).value, Mined(sort)) == None
  {
    forall sort: Sort
      ensures Inv(WorldWith(sort), LEDGER) && Takes(WorldWith(sort), LEDGER, Mined(sort))
      ensures ApplyBlock(WorldWith(sort), [0], LEDGER, Mined(sort)).Some?
      ensures Wealth(ApplyBlock(WorldWith(sort), [0], LEDGER, Mined(sort)).value) + 1200 == Wealth(LEDGER) + EmissionOf([0], 2)
    {
      LedgerIsOk(sort);
      BlockIsAccepted(sort);
      BlockLoses(sort);
    }
    forall sort: Sort | KeepsFirst(sort)
      ensures RevertBlock(WorldWith(sort), [0], ApplyBlock(WorldWith(sort), [0], LEDGER, Mined(sort)).value, Mined(sort)) == Some(LEDGER)
    {
      KeptFirstIsOrderly(WorldWith(sort), LEDGER, Mined(sort));
      RevertBlockUndoes(WorldWith(sort), [0], LEDGER, Mined(sort));
    }
    CannotBeUndone();
  }

  lemma BlockLoses(sort: Sort)
    requires Takes(WorldWith(sort), LEDGER, Mined(sort)) && ApplyBlock(WorldWith(sort), [0], LEDGER, Mined(sort)).Some?
    ensures Wealth(ApplyBlock(WorldWith(sort), [0], LEDGER, Mined(sort)).value) + 1200 == Wealth(LEDGER) + EmissionOf([0], 2)
  {
    var w, blk := WorldWith(sort), Mined(sort);
    BlockIsTaken(sort, blk.rewards);
    UnitIsViewed(sort, blk.rewards);
    BlockAccount(w, [0], LEDGER, blk);
    UseLoses();
    TotalOfEmpty<Address>(map[]);
    assert LostByBlock(w, LEDGER, blk) == 1200;
  }

  lemma CannotBeUndone()
    ensures var sort := WorstSort(1200); var w := WorldWith(sort);
            && Takes(w, LEDGER, Mined(sort)) && ApplyBlock(w, [0], LEDGER, Mined(sort)).Some?
            && RevertBlock(w, [0], ApplyBlock(w, [0], LEDGER, Mined(sort)).value, Mined(sort)) == None
  {
    var sort := WorstSort(1200);
    var w, blk := WorldWith(sort), Mined(sort);
    BlockIsAccepted(sort);
    BlockIsTaken(sort, blk.rewards);
    UnitIsViewed(sort, blk.rewards);
    SomethingIsDue();
    BookIsOk();
    WorstUndoPays(BOOK, 1200);
    assert !Orderly(DOCS, 1200, "u", sort);
    RevertBlockExactly(w, [0], LEDGER, blk);
  }
}
