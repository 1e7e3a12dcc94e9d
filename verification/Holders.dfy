/** Who holds the shares that the service reports of a block give, and how large they are. */
module Holders {
  import opened Basics
  import opened Ordering
  import opened Rewards
  import opened Statistics
  import opened Totals
  import BlockRewards

  // What the shares of one account are worth together.
  function SharesOf(shares: seq<Share>, a: Address): real
    requires Proper(shares)
  {
    if shares == [] then 0.0
    else
      var last := shares[|shares| - 1];
      SharesOf(shares[..|shares| - 1], a) + if last.to == a then last.num as real / last.den as real else 0.0
  }

  lemma {:induction false} SharesOfConcat(s: seq<Share>, s': seq<Share>, a: Address)
    requires Proper(s) && Proper(s')
    ensures Proper(s + s') && SharesOf(s + s', a) == SharesOf(s, a) + SharesOf(s', a)
  {
    if s' == [] {
      assert s + s' == s;
    } else {
      SharesOfConcat(s, s'[..|s'| - 1], a);
      assert (s + s')[..|s + s'| - 1] == s + s'[..|s'| - 1];
    }
  }

  lemma {:induction false} ScaledOf(shares: seq<Share>, t: nat, a: Address)
    requires Proper(shares) && t > 0
    ensures Proper(Scaled(shares, t)) && SharesOf(Scaled(shares, t), a) == SharesOf(shares, a) / t as real
  {
    ScaledIsProper(shares, t);
    if shares == [] {
    } else {
      var init, last := shares[..|shares| - 1], shares[|shares| - 1];
      ScaledOf(init, t, a);
      assert Scaled(shares, t)[..|shares| - 1] == Scaled(init, t);
      ScaledShare(last, t);
      SumOfQuotients(SharesOf(init, a), last.num as real / last.den as real, t as real);
    }
  }

  // ----- Shares with the same denominator, counted by their numerators -----

  predicate AllOver(shares: seq<Share>, den: nat) {
    forall i :: 0 <= i < |shares| ==> shares[i].den == den
  }

  function NumOf(shares: seq<Share>, a: Address): nat {
    if shares == [] then 0
    else
      var last := shares[|shares| - 1];
      NumOf(shares[..|shares| - 1], a) + if last.to == a then last.num else 0
  }

  lemma {:induction false} NumOfConcat(s: seq<Share>, s': seq<Share>, a: Address)
    ensures NumOf(s + s', a) == NumOf(s, a) + NumOf(s', a)
  {
    if s' == [] {
      assert s + s' == s;
    } else {
      NumOfConcat(s, s'[..|s'| - 1], a);
      assert (s + s')[..|s + s'| - 1] == s + s'[..|s'| - 1];
    }
  }

  lemma SumOver(m: nat, n: nat, d: real)
    requires d > 0.0
    ensures (m + n) as real / d == m as real / d + n as real / d
  {}

  lemma {:induction false} NumsAreShares(shares: seq<Share>, den: nat, a: Address)
    requires AllOver(shares, den) && den > 0
    ensures Proper(shares) && SharesOf(shares, a) == NumOf(shares, a) as real / den as real
  {
    if shares == [] {
    } else {
      var init, last := shares[..|shares| - 1], shares[|shares| - 1];
      NumsAreShares(init, den, a);
      SumOver(NumOf(init, a), last.num, den as real);
    }
  }

  // An account holds `n` of `t` parts, each of them a `den`-th.
  ghost predicate Holds(shares: seq<Share>, n: nat, den: nat, t: nat, a: Address) {
    den > 0 && t > 0 && Proper(shares) && SharesOf(shares, a) == n as real / den as real / t as real
  }

  lemma ScaledHolds(shares: seq<Share>, den: nat, t: nat, n: nat, a: Address)
    requires AllOver(shares, den) && NumOf(shares, a) == n && den > 0 && t > 0
    ensures Holds(Scaled(shares, t), n, den, t, a)
  {
    NumsAreShares(shares, den, a);
    ScaledOf(shares, t, a);
  }

  // ----- Storages -----

  lemma {:induction false} StorageNums(g: StorageGroup, keys: seq<Address>, a: Address)
    requires Distinct(keys)
    ensures AllOver(StorageShares(g, keys), 1)
    ensures NumOf(StorageShares(g, keys), a) == if a in keys then Lookup(g, a) else 0
  {
    if keys == [] {
    } else {
      var init := keys[..|keys| - 1];
      StorageNums(g, init, a);
      assert StorageShares(g, keys)[..|keys| - 1] == StorageShares(g, init);
      assert keys == init + [keys[|keys| - 1]];
    }
  }

  // A storage holds its part of all views.
  lemma {:induction false} StoragesHold(g: StorageGroup, a: Address, n: nat, t: nat)
    requires n == Lookup(g, a) && t == Total(g) && t > 0
    ensures Holds(Scaled(StorageShares(g, Ascending(g.Keys)), SumAt(g, Ascending(g.Keys))), n, 1, t, a)
  {
    StorageNums(g, Ascending(g.Keys), a);
    SumAtIsTotal(g, Ascending(g.Keys));
    ScaledHolds(StorageShares(g, Ascending(g.Keys)), 1, t, n, a);
  }

  // ----- Channels -----

  // The views by serving and by owning channel.
  type ViewTable = map<Address, map<Address, nat>>

  // All that an account served, all that was viewed of its contents, and all together.
  ghost function Served(v: ViewTable, a: Address): nat {
    Total(Inner(v, a))
  }

  ghost function WatchedAt(v: ViewTable, servers: seq<Address>, a: Address): nat {
    if servers == [] then 0
    else WatchedAt(v, servers[..|servers| - 1], a) + Lookup(Inner(v, servers[|servers| - 1]), a)
  }

  ghost function Watched(v: ViewTable, a: Address): nat {
    WatchedAt(v, Ascending(v.Keys), a)
  }

  ghost function ServedAt(v: ViewTable, servers: seq<Address>): nat {
    if servers == [] then 0
    else ServedAt(v, servers[..|servers| - 1]) + Served(v, servers[|servers| - 1])
  }

  ghost function AllViews(v: ViewTable): nat {
    ServedAt(v, Ascending(v.Keys))
  }

  // Half of what was served, half of what was viewed.
  lemma PairOf(server: Address, owner: Address, count: nat, a: Address)
    ensures AllOver(PairShares(server, owner, count), 2)
    ensures NumOf(PairShares(server, owner, count), a) == (if a == server then count else 0) + (if a == owner then count else 0)
  {
    var s := PairShares(server, owner, count);
    if server == owner {
      assert s[..0] == [];
    } else {
      assert s[..1][..0] == [] && s[..1] == [Share(owner, count, 2)];
      assert NumOf(s[..1], a) == NumOf(s[..1][..0], a) + if a == owner then count else 0;
    }
  }

  // The shares of one server, and of all of them, from the table.
  function PairsOf(server: Address, views: map<Address, nat>, owners: seq<Address>): seq<Share> {
    if owners == [] then []
    else
      var o := owners[|owners| - 1];
      PairsOf(server, views, owners[..|owners| - 1]) + PairShares(server, o, Lookup(views, o))
  }

  lemma OneListed(list: seq<Address>, a: Address)
    requires list != [] && Distinct(list)
    ensures var init, last := list[..|list| - 1], list[|list| - 1];
            && Distinct(init) && (a in list <==> a in init || a == last) && !(a in init && a == last)
  {
    assert list == list[..|list| - 1] + [list[|list| - 1]];
  }

  lemma PairsMore(server: Address, views: map<Address, nat>, owners: seq<Address>, a: Address)
    requires owners != []
    ensures var init, o := owners[..|owners| - 1], owners[|owners| - 1];
            && (AllOver(PairsOf(server, views, init), 2) ==> AllOver(PairsOf(server, views, owners), 2))
            && NumOf(PairsOf(server, views, owners), a) == NumOf(PairsOf(server, views, init), a)
               + (if a == server then Lookup(views, o) else 0) + (if a == o then Lookup(views, o) else 0)
  {
    var init, o := owners[..|owners| - 1], owners[|owners| - 1];
    PairOf(server, o, Lookup(views, o), a);
    NumOfConcat(PairsOf(server, views, init), PairShares(server, o, Lookup(views, o)), a);
  }

  lemma {:induction false} PairsHold(server: Address, views: map<Address, nat>, owners: seq<Address>, a: Address)
    requires Distinct(owners)
    ensures AllOver(PairsOf(server, views, owners), 2)
    ensures NumOf(PairsOf(server, views, owners), a) ==
            (if a == server then SumAt(views, owners) else 0) + (if a in owners then Lookup(views, a) else 0)
  {
    if owners == [] {
    } else {
      var init := owners[..|owners| - 1];
      PairsMore(server, views, owners, a);
      PairsHold(server, views, init, a);
      OneListed(owners, a);
    }
  }

  function AllPairs(v: ViewTable, servers: seq<Address>): seq<Share> {
    if servers == [] then []
    else
      var c := servers[|servers| - 1];
      AllPairs(v, servers[..|servers| - 1]) + PairsOf(c, Inner(v, c), Ascending(Inner(v, c).Keys))
  }

  lemma ServerHolds(v: ViewTable, c: Address, a: Address)
    ensures var s := PairsOf(c, Inner(v, c), Ascending(Inner(v, c).Keys));
            && AllOver(s, 2)
            && NumOf(s, a) == (if a == c then Served(v, a) else 0) + Lookup(Inner(v, c), a)
  {
    var owners := Ascending(Inner(v, c).Keys);
    PairsHold(c, Inner(v, c), owners, a);
    SumAtIsTotal(Inner(v, c), owners);
  }

  lemma {:induction false} ServersHold(v: ViewTable, servers: seq<Address>, a: Address)
    requires Distinct(servers)
    ensures AllOver(AllPairs(v, servers), 2)
    ensures NumOf(AllPairs(v, servers), a) == (if a in servers then Served(v, a) else 0) + WatchedAt(v, servers, a)
  {
    if servers == [] {
    } else {
      var init, c := servers[..|servers| - 1], servers[|servers| - 1];
      assert c in servers && servers == init + [c];
      ServersHold(v, init, a);
      ServerHolds(v, c, a);
      NumOfConcat(AllPairs(v, init), PairsOf(c, Inner(v, c), Ascending(Inner(v, c).Keys)), a);
    }
  }

  lemma SumAlong(m: map<Address, nat>, keys: set<Address>)
    requires m.Keys == keys
    ensures SumAt(m, Ascending(keys)) == Total(m)
  {
    SumAtIsTotal(m, Ascending(keys));
  }

  lemma ServedNothing(v: ViewTable, a: Address)
    requires a !in v
    ensures Served(v, a) == 0
  {}

  lemma TableNums(v: ViewTable, a: Address)
    ensures AllOver(AllPairs(v, Ascending(v.Keys)), 2) && NumOf(AllPairs(v, Ascending(v.Keys)), a) == Served(v, a) + Watched(v, a)
  {
    ServersHold(v, Ascending(v.Keys), a);
    if a !in v { ServedNothing(v, a); }
  }

  // A channel holds half of the views it served and half of the views of its contents, both
  // as parts of all views.
  lemma {:induction false} TableHolds(v: ViewTable, a: Address, shares: seq<Share>, n: nat, t: nat)
    requires shares == AllPairs(v, Ascending(v.Keys)) && n == Served(v, a) + Watched(v, a) && t == AllViews(v) && t > 0
    ensures Holds(Scaled(shares, t), n, 2, t, a)
  {
    TableNums(v, a);
    ScaledHolds(shares, 2, t, n, a);
  }

  // ----- The table of the counted reports -----

  ghost function TableOf(g: ContentGroup): ViewTable
    requires OkServers(g)
  {
    map c | c in g :: ByOwner(g[c])
  }

  ghost predicate OkServers(g: ContentGroup) {
    forall c <- g :: OkOwners(g[c])
  }

  ghost function ByOwner(m: map<Address, map<nat, map<(Uri, Uri), nat>>>): map<Address, nat>
    requires OkOwners(m)
  {
    map o | o in m :: Views(m[o])
  }

  lemma {:induction false} SameServer(server: Address, m: map<Address, map<nat, map<(Uri, Uri), nat>>>, owners: seq<Address>)
    requires OkOwners(m) && forall o <- owners :: o in m
    ensures ServerShares(server, m, owners) == PairsOf(server, ByOwner(m), owners)
    ensures ServerViews(m, owners) == SumAt(ByOwner(m), owners)
  {
    if owners == [] {
    } else {
      assert owners[|owners| - 1] in owners;
      SameServer(server, m, owners[..|owners| - 1]);
    }
  }

  lemma {:induction false} InTable(g: ContentGroup, c: Address)
    requires OkServers(g) && c in g
    ensures OkOwners(g[c]) && Inner(TableOf(g), c) == ByOwner(g[c]) && ByOwner(g[c]).Keys == g[c].Keys
  {
    assert TableOf(g)[c] == ByOwner(g[c]);
  }

  lemma OneServer(m: map<Address, map<nat, map<(Uri, Uri), nat>>>, c: Address)
    requires OkOwners(m)
    ensures ServerShares(c, m, Ascending(m.Keys)) == PairsOf(c, ByOwner(m), Ascending(m.Keys))
    ensures ServerViews(m, Ascending(m.Keys)) == Total(ByOwner(m))
  {
    SameServer(c, m, Ascending(m.Keys));
    SumAlong(ByOwner(m), m.Keys);
  }

  lemma {:induction false} SameServers(g: ContentGroup, servers: seq<Address>)
    requires OkServers(g) && ServersOk(g, servers)
    ensures ChannelShares(g, servers) == AllPairs(TableOf(g), servers)
    ensures ChannelViews(g, servers) == ServedAt(TableOf(g), servers)
  {
    if servers == [] {
    } else {
      var c := servers[|servers| - 1];
      assert c in servers;
      InTable(g, c);
      OneServer(g[c], c);
      SameServers(g, servers[..|servers| - 1]);
    }
  }

  lemma ServersAreOk(g: ContentGroup, servers: seq<Address>)
    requires OkServers(g) && forall c <- servers :: c in g
    ensures ServersOk(g, servers)
  {}

  lemma SameKeys(g: ContentGroup)
    requires OkServers(g)
    ensures TableOf(g).Keys == g.Keys
  {}

  lemma AllServed(v: ViewTable, servers: seq<Address>)
    requires servers == Ascending(v.Keys)
    ensures AllViews(v) == ServedAt(v, servers)
  {}

  lemma {:induction false} SameTotals(g: ContentGroup, v: ViewTable, servers: seq<Address>)
    requires OkServers(g) && v == TableOf(g) && servers == Ascending(g.Keys)
    ensures servers == Ascending(v.Keys) && ServersOk(g, servers)
    ensures ChannelShares(g, servers) == AllPairs(v, servers) && ChannelViews(g, servers) == AllViews(v)
  {
    SameKeys(g);
    ServersAreOk(g, servers);
    SameServers(g, servers);
    AllServed(v, servers);
  }

  lemma {:induction false} ChannelsHold(g: ContentGroup, a: Address, n: nat, t: nat)
    requires OkServers(g) && g != map[]
    requires n == Served(TableOf(g), a) + Watched(TableOf(g), a) && t == AllViews(TableOf(g))
    ensures ServersOk(g, Ascending(g.Keys))
    ensures Holds(Scaled(ChannelShares(g, Ascending(g.Keys)), ChannelViews(g, Ascending(g.Keys))), n, 2, t, a)
  {
    SameTotals(g, TableOf(g), Ascending(g.Keys));
    ChannelSum(g, Ascending(g.Keys));
    assert Ascending(g.Keys) != [];
    TableHolds(TableOf(g), a, ChannelShares(g, Ascending(g.Keys)), n, t);
  }

  // ----- Authors -----

  function Times(authors: seq<Address>, a: Address): nat {
    if authors == [] then 0 else Times(authors[..|authors| - 1], a) + if authors[|authors| - 1] == a then 1 else 0
  }

  // What a file brings an account that is an author of it: an equal part of what the file
  // gets, which is an equal part of the usage of the unit.
  function FileWorth(authors: seq<Address>, usage: nat, files: nat, a: Address): real
    requires authors != [] && files > 0
  {
    Times(authors, a) as real * (usage as real / files as real / |authors| as real)
  }

  function UnitWorth(reg: Registry, some: seq<Uri>, usage: nat, files: nat, a: Address): real
    requires files > 0 && forall f <- some :: f in reg.authors && reg.authors[f] != []
  {
    if some == [] then 0.0
    else
      var f := some[|some| - 1];
      assert f in some;
      UnitWorth(reg, some[..|some| - 1], usage, files, a) + FileWorth(reg.authors[f], usage, files, a)
  }

  lemma SomeFiles(reg: Registry, files: map<Uri, nat>)
    requires files != map[] && forall f <- files :: f in reg.authors && reg.authors[f] != []
    ensures |files| > 0 && forall f <- Ascending(files.Keys) :: f in reg.authors && reg.authors[f] != []
  {}

  // The usage of a unit is the average over its counted files.
  ghost function FilesWorth(reg: Registry, files: map<Uri, nat>, a: Address): real
    requires files != map[] && forall f <- files :: f in reg.authors && reg.authors[f] != []
  {
    SomeFiles(reg, files);
    UnitWorth(reg, Ascending(files.Keys), Average(files), |files|, a)
  }

  ghost function AuthorWorth(reg: Registry, g: AuthorGroup, units: seq<Uri>, a: Address): real
    requires UnitsOk(reg, g, units)
  {
    if units == [] then 0.0
    else
      var u := units[|units| - 1];
      assert u in units;
      AuthorWorth(reg, g, units[..|units| - 1], a) + FilesWorth(reg, g[u], a)
  }

  lemma {:induction false} FileNums(authors: seq<Address>, total: nat, den: nat, a: Address)
    ensures var s := seq(|authors|, i requires 0 <= i < |authors| => Share(authors[i], total, den));
            AllOver(s, den) && NumOf(s, a) == Times(authors, a) * total
  {
    if authors == [] {
    } else {
      var init := authors[..|authors| - 1];
      FileNums(init, total, den, a);
      var s := seq(|authors|, i requires 0 <= i < |authors| => Share(authors[i], total, den));
      assert s[..|s| - 1] == seq(|init|, i requires 0 <= i < |init| => Share(init[i], total, den));
      OneTimeMore(Times(init, a), total);
    }
  }

  lemma OneTimeMore(k: nat, n: nat)
    ensures k * n + n == (k + 1) * n
  {}

  lemma PartOfPart(k: nat, n: nat, c: nat, d: nat)
    requires c > 0 && d > 0
    ensures c * d > 0 && (k * n) as real / (c * d) as real == k as real * (n as real / c as real / d as real)
  {
    assert (c * d) as real == c as real * d as real && (k * n) as real == k as real * n as real;
    QuotientOfQuotient(n as real, c as real, d as real);
    assert k as real * n as real / (c as real * d as real) == k as real * (n as real / (c as real * d as real));
  }

  lemma FileHolds(authors: seq<Address>, usage: nat, files: nat, a: Address)
    requires authors != [] && files > 0
    ensures Proper(FileShares(authors, usage, files))
    ensures SharesOf(FileShares(authors, usage, files), a) == FileWorth(authors, usage, files, a)
  {
    PartOfPart(Times(authors, a), usage, files, |authors|);
    FileNums(authors, usage, files * |authors|, a);
    NumsAreShares(FileShares(authors, usage, files), files * |authors|, a);
  }

  lemma {:induction false} UnitHolds(reg: Registry, some: seq<Uri>, usage: nat, files: nat, a: Address)
    requires files > 0 && forall f <- some :: f in reg.authors && reg.authors[f] != []
    ensures var shares := UnitShares(reg, some, usage, files);
            Proper(shares) && SharesOf(shares, a) == UnitWorth(reg, some, usage, files, a)
  {
    if some == [] {
    } else {
      var init, f := some[..|some| - 1], some[|some| - 1];
      assert f in some;
      UnitHolds(reg, init, usage, files, a);
      FileHolds(reg.authors[f], usage, files, a);
      SharesOfConcat(UnitShares(reg, init, usage, files), FileShares(reg.authors[f], usage, files), a);
    }
  }

  lemma FilesHold(reg: Registry, files: map<Uri, nat>, a: Address)
    requires files != map[] && forall f <- files :: f in reg.authors && reg.authors[f] != []
    ensures forall f <- Ascending(files.Keys) :: f in reg.authors && reg.authors[f] != []
    ensures var shares := UnitShares(reg, Ascending(files.Keys), Average(files), |files|);
            Proper(shares) && SharesOf(shares, a) == FilesWorth(reg, files, a)
  {
    SomeFiles(reg, files);
    UnitHolds(reg, Ascending(files.Keys), Average(files), |files|, a);
  }

  lemma {:induction false} AuthorNums(reg: Registry, g: AuthorGroup, units: seq<Uri>, a: Address)
    requires UnitsOk(reg, g, units)
    ensures Proper(AuthorShares(reg, g, units)) && SharesOf(AuthorShares(reg, g, units), a) == AuthorWorth(reg, g, units, a)
  {
    if units == [] {
    } else {
      var init, u := units[..|units| - 1], units[|units| - 1];
      assert u in units;
      AuthorNums(reg, g, init, a);
      FilesHold(reg, g[u], a);
      SharesOfConcat(AuthorShares(reg, g, init), UnitShares(reg, Ascending(g[u].Keys), Average(g[u]), |g[u]|), a);
    }
  }

  // An author holds what his files are worth, as a part of what all are worth.
  lemma AuthorsHold(reg: Registry, g: AuthorGroup, units: seq<Uri>, a: Address)
    requires UnitsOk(reg, g, units) && UnitTotals(g, units) > 0
    ensures var shares := Scaled(AuthorShares(reg, g, units), UnitTotals(g, units));
            Proper(shares) && SharesOf(shares, a) == AuthorWorth(reg, g, units, a) / UnitTotals(g, units) as real
  {
    AuthorNums(reg, g, units, a);
    ScaledOf(AuthorShares(reg, g, units), UnitTotals(g, units), a);
  }

  // ----- The shares that the counted reports give -----

  lemma {:induction false} AllPeers(reg: Registry, counted: seq<Report>)
    requires Known(reg, counted)
    ensures Total(Group(reg, counted).storages) == SumWhere(counted, (r: Report) => true)
  {
    if counted == [] {
    } else {
      var init, last := counted[..|counted| - 1], counted[|counted| - 1];
      AllPeers(reg, init);
      BlockRewards.AddToTotal(Group(reg, init).storages, last.peer, last.count);
    }
  }

  // Of what was delivered a storage holds the part it delivered.
  lemma StorageOfReports(reg: Registry, counted: seq<Report>, a: Address)
    requires Known(reg, counted) && counted != []
    ensures OkGroups(reg, Group(reg, counted))
    ensures Holds(StatsOf(reg, Group(reg, counted)).storages, SumWhere(counted, OfPeer(a)), 1, SumWhere(counted, (r: Report) => true), a)
  {
    GroupIsOk(reg, counted);
    AllPeers(reg, counted);
    var g, last := Group(reg, counted).storages, counted[|counted| - 1];
    GroupsAreSums(reg, counted, last.server, last.unit, last.file, a);
    SomeDelivered(counted);
    StoragesHold(g, a, Lookup(g, a), Total(g));
  }

  lemma SomeDelivered(counted: seq<Report>)
    requires counted != [] && counted[|counted| - 1].count > 0
    ensures SumWhere(counted, (r: Report) => true) > 0
  {}

  // A channel holds the views it served and the views of its contents, of twice all views.
  ghost predicate ChannelShare(shares: seq<Share>, v: ViewTable, a: Address) {
    Holds(shares, Served(v, a) + Watched(v, a), 2, AllViews(v), a)
  }

  lemma ChannelOfReports(reg: Registry, counted: seq<Report>, a: Address)
    requires Known(reg, counted) && counted != []
    ensures OkGroups(reg, Group(reg, counted))
    ensures ChannelShare(StatsOf(reg, Group(reg, counted)).channels, TableOf(Group(reg, counted).contents), a)
  {
    GroupIsOk(reg, counted);
    var g := Group(reg, counted).contents;
    var v := TableOf(g);
    ChannelsHold(g, a, Served(v, a) + Watched(v, a), AllViews(v));
  }

  lemma AuthorOfReports(reg: Registry, counted: seq<Report>, a: Address)
    requires Known(reg, counted) && counted != []
    ensures OkGroups(reg, Group(reg, counted)) && OkStats(StatsOf(reg, Group(reg, counted)))
    ensures var g := Group(reg, counted).authors;
            var units := Ascending(g.Keys);
            && UnitsOk(reg, g, units) && UnitTotals(g, units) > 0
            && SharesOf(StatsOf(reg, Group(reg, counted)).authors, a) == AuthorWorth(reg, g, units, a) / UnitTotals(g, units) as real
  {
    GroupIsOk(reg, counted);
    StatsAreWhole(reg, counted);
    var g := Group(reg, counted).authors;
    UsageIsPositive(reg, g, Ascending(g.Keys));
    AuthorsHold(reg, g, Ascending(g.Keys), a);
  }

  lemma UsageIsPositive(reg: Registry, g: AuthorGroup, units: seq<Uri>)
    requires UnitsOk(reg, g, units) && units != []
    ensures UnitTotals(g, units) > 0
  {
    var u := units[|units| - 1];
    assert u in units;
    AverageIsPositive(g[u]);
  }
}
