/**
 From the service reports of channels and storages to shares of the reward.  A view counts
 when the channel that served it and the storage that delivered it roughly agree.
 */
module Statistics {
  import opened Basics
  import opened Ordering
  import opened Rewards
  import opened Totals

  // One counted item of a report: `server` reports `count` deliveries of a file of a unit,
  // together with `peer`.
  datatype Report = Report(server: Address, file: Uri, unit: Uri, peer: Address, count: nat)

  datatype ContentUnit = ContentUnit(channel: Address, content: nat)

  // The registered files with their authors, and the registered units.
  datatype Records = Records(authors: map<Uri, seq<Address>>, units: map<Uri, ContentUnit>)

  // A file without authors is not accepted.
  type Registry = r: Records | forall f <- r.authors :: r.authors[f] != [] witness Records(map[], map[])

  // ----- Cross verification -----

  function ChannelCount(reports: seq<Report>, channel: Address, file: Uri, storage: Address): nat {
    if reports == [] then 0
    else
      var r := reports[|reports| - 1];
      ChannelCount(reports[..|reports| - 1], channel, file, storage) +
      if r.server == channel && r.file == file && r.peer == storage then r.count else 0
  }

  // The larger number exceeds the smaller one by more than a fifth.
  predicate Mismatch(a: nat, b: nat) {
    5 * Max(a, b) > 6 * Basics.Min(a, b)
  }

  // Either is more than 1.2 times the other.
  lemma MismatchIsAFifth(a: nat, b: nat)
    ensures Mismatch(a, b) <==> a as real > 1.2 * b as real || b as real > 1.2 * a as real
  {}

  predicate Confirms(r: Report, reports: seq<Report>, channel: Address, file: Uri, storage: Address) {
    var known := ChannelCount(reports, channel, file, storage);
    && r.server == storage && r.file == file && r.peer == channel
    && known > 0 && !Mismatch(known, r.count)
  }

  predicate Agreed(reports: seq<Report>, storageReports: seq<Report>, channel: Address, file: Uri, storage: Address) {
    exists k :: 0 <= k < |storageReports| && Confirms(storageReports[k], reports, channel, file, storage)
  }

  // The channel reports that count.
  function Counted(all: seq<Report>, storageReports: seq<Report>, reports: seq<Report>): seq<Report> {
    if reports == [] then []
    else
      var r := reports[|reports| - 1];
      var rest := Counted(all, storageReports, reports[..|reports| - 1]);
      if Agreed(all, storageReports, r.server, r.file, r.peer) then rest + [r] else rest
  }

  // ----- Grouping -----

  type StorageGroup = map<Address, nat>
  type AuthorGroup = map<Uri, map<Uri, nat>>
  type ContentGroup = map<Address, map<Address, map<nat, map<(Uri, Uri), nat>>>>

  function Inner<K, L, V>(m: map<K, map<L, V>>, k: K): map<L, V> {
    if k in m then m[k] else map[]
  }

  function AddTo<K>(m: map<K, nat>, k: K, n: nat): map<K, nat> {
    m[k := Lookup(m, k) + n]
  }

  function AddView(g: ContentGroup, info: ContentUnit, r: Report): ContentGroup {
    var byOwner := Inner(g, r.server);
    var byContent := Inner(byOwner, info.channel);
    var views := Inner(byContent, info.content);
    g[r.server := byOwner[info.channel := byContent[info.content := AddTo(views, (r.unit, r.file), r.count)]]]
  }

  datatype Groups = Groups(storages: StorageGroup, authors: AuthorGroup, contents: ContentGroup)

  predicate Known(reg: Registry, reports: seq<Report>) {
    forall k :: 0 <= k < |reports| ==>
      && reports[k].count > 0 && reports[k].file in reg.authors && reports[k].unit in reg.units
      && reg.authors[reports[k].file] != []
  }

  function Group(reg: Registry, counted: seq<Report>): Groups
    requires Known(reg, counted)
  {
    if counted == [] then Groups(map[], map[], map[])
    else
      var r := counted[|counted| - 1];
      var g := Group(reg, counted[..|counted| - 1]);
      Groups(AddTo(g.storages, r.peer, r.count),
             g.authors[r.unit := AddTo(Inner(g.authors, r.unit), r.file, r.count)],
             AddView(g.contents, reg.units[r.unit], r))
  }

  // ----- What the groups add up -----

  function SumWhere(reports: seq<Report>, p: Report -> bool): nat {
    if reports == [] then 0
    else SumWhere(reports[..|reports| - 1], p) + if p(reports[|reports| - 1]) then reports[|reports| - 1].count else 0
  }

  function OfPeer(peer: Address): Report -> bool { (r: Report) => r.peer == peer }

  function OfFile(unit: Uri, file: Uri): Report -> bool { (r: Report) => r.unit == unit && r.file == file }

  function OfServer(server: Address, unit: Uri, file: Uri): Report -> bool {
    (r: Report) => r.server == server && r.unit == unit && r.file == file
  }

  function ViewsAt(g: ContentGroup, info: ContentUnit, server: Address, unit: Uri, file: Uri): nat {
    Lookup(Inner(Inner(Inner(g, server), info.channel), info.content), (unit, file))
  }

  lemma AddViewAt(g: ContentGroup, info: ContentUnit, r: Report, at: ContentUnit, server: Address, unit: Uri, file: Uri)
    ensures ViewsAt(AddView(g, info, r), at, server, unit, file) ==
            ViewsAt(g, at, server, unit, file) +
            if server == r.server && at == info && unit == r.unit && file == r.file then r.count else 0
  {}

  // Each group holds, for every key, the sum of the counted reports with that key.
  lemma {:induction false} GroupsAreSums(reg: Registry, counted: seq<Report>, server: Address, unit: Uri, file: Uri, peer: Address)
    requires Known(reg, counted) && unit in reg.units
    ensures var g := Group(reg, counted);
            && Lookup(g.storages, peer) == SumWhere(counted, OfPeer(peer))
            && Lookup(Inner(g.authors, unit), file) == SumWhere(counted, OfFile(unit, file))
            && ViewsAt(g.contents, reg.units[unit], server, unit, file)
               == SumWhere(counted, OfServer(server, unit, file))
  {
    if counted == [] {
    } else {
      var init, last := counted[..|counted| - 1], counted[|counted| - 1];
      GroupsAreSums(reg, init, server, unit, file, peer);
      AddViewAt(Group(reg, init).contents, reg.units[last.unit], last, reg.units[unit], server, unit, file);
    }
  }

  // Every entry of every group is there because something was counted.
  predicate Positive<K>(m: map<K, nat>) {
    m != map[] && forall k <- m :: m[k] > 0
  }

  predicate OkGroups(reg: Registry, g: Groups) {
    && (forall s <- g.storages :: g.storages[s] > 0)
    && (forall u <- g.authors :: Positive(g.authors[u]) && forall f <- g.authors[u] :: f in reg.authors && reg.authors[f] != [])
    && (forall c <- g.contents :: OkOwners(g.contents[c]))
  }

  predicate OkOwners(m: map<Address, map<nat, map<(Uri, Uri), nat>>>) {
    m != map[] && forall o <- m :: OkContents(m[o])
  }

  predicate OkContents(m: map<nat, map<(Uri, Uri), nat>>) {
    m != map[] && forall i <- m :: Positive(m[i])
  }

  lemma AddToPositive<K>(m: map<K, nat>, k: K, n: nat)
    requires n > 0 && forall x <- m :: m[x] > 0
    ensures Positive(AddTo(m, k, n))
  {
    assert k in AddTo(m, k, n);
  }

  lemma AddViewOk(g: ContentGroup, info: ContentUnit, r: Report)
    requires r.count > 0 && forall c <- g :: OkOwners(g[c])
    ensures forall c <- AddView(g, info, r) :: OkOwners(AddView(g, info, r)[c])
  {
    var byOwner := Inner(g, r.server);
    var byContent := Inner(byOwner, info.channel);
    var views := Inner(byContent, info.content);
    AddToPositive(views, (r.unit, r.file), r.count);
    ContentsWith(byContent, info.content, AddTo(views, (r.unit, r.file), r.count));
    OwnersWith(byOwner, info.channel, byContent[info.content := AddTo(views, (r.unit, r.file), r.count)]);
  }

  lemma ContentsWith(m: map<nat, map<(Uri, Uri), nat>>, k: nat, views: map<(Uri, Uri), nat>)
    requires Positive(views) && forall i <- m :: Positive(m[i])
    ensures OkContents(m[k := views])
  {
    assert k in m[k := views];
  }

  lemma OwnersWith(m: map<Address, map<nat, map<(Uri, Uri), nat>>>, k: Address, contents: map<nat, map<(Uri, Uri), nat>>)
    requires OkContents(contents) && forall o <- m :: OkContents(m[o])
    ensures OkOwners(m[k := contents])
  {
    assert k in m[k := contents];
  }

  lemma {:induction false} GroupIsOk(reg: Registry, counted: seq<Report>)
    requires Known(reg, counted)
    ensures OkGroups(reg, Group(reg, counted))
    ensures counted == [] <==> Group(reg, counted).storages == map[]
    ensures counted == [] <==> Group(reg, counted).authors == map[]
    ensures counted == [] <==> Group(reg, counted).contents == map[]
  {
    if counted == [] {
    } else {
      var r := counted[|counted| - 1];
      var init := counted[..|counted| - 1];
      GroupIsOk(reg, init);
      var g := Group(reg, init);
      AddViewOk(g.contents, reg.units[r.unit], r);
      AddToPositive(Inner(g.authors, r.unit), r.file, r.count);
      var g' := Group(reg, counted);
      assert r.peer in g'.storages && r.unit in g'.authors && r.server in g'.contents;
    }
  }

  // ----- Shares -----

  // All denominators times `t`: first sums of parts, in the end parts of a whole.
  function Scaled(shares: seq<Share>, t: nat): seq<Share> {
    seq(|shares|, i requires 0 <= i < |shares| => shares[i].(den := shares[i].den * t))
  }

  lemma QuotientOfQuotient(n: real, d: real, t: real)
    requires d > 0.0 && t > 0.0
    ensures n / (d * t) == n / d / t
  {
    var q := n / d;
    assert n == q * d;
    assert q * d == q / t * (d * t);
  }

  lemma SumOfQuotients(a: real, b: real, t: real)
    requires t > 0.0
    ensures (a + b) / t == a / t + b / t
  {}

  lemma ScaledShare(s: Share, t: nat)
    requires s.den > 0 && t > 0
    ensures s.den * t > 0 && s.num as real / (s.den * t) as real == s.num as real / s.den as real / t as real
  {
    assert (s.den * t) as real == s.den as real * t as real;
    QuotientOfQuotient(s.num as real, s.den as real, t as real);
  }

  lemma ScaledIsProper(shares: seq<Share>, t: nat)
    requires Proper(shares) && t > 0
    ensures Proper(Scaled(shares, t))
  {
    forall i | 0 <= i < |shares| ensures shares[i].den * t > 0 { ScaledShare(shares[i], t); }
  }

  lemma {:induction false} ScaledSum(shares: seq<Share>, t: nat)
    requires Proper(shares) && t > 0
    ensures Proper(Scaled(shares, t)) && SumShares(Scaled(shares, t)) == SumShares(shares) / t as real
  {
    ScaledIsProper(shares, t);
    if shares == [] {
    } else {
      var init, last := shares[..|shares| - 1], shares[|shares| - 1];
      ScaledSum(init, t);
      assert Scaled(shares, t)[..|shares| - 1] == Scaled(init, t);
      ScaledShare(last, t);
      SumOfQuotients(SumShares(init), last.num as real / last.den as real, t as real);
    }
  }

  lemma {:induction false} SumSharesConcat(s: seq<Share>, s': seq<Share>)
    requires Proper(s) && Proper(s')
    ensures Proper(s + s') && SumShares(s + s') == SumShares(s) + SumShares(s')
  {
    if s' == [] {
      assert s + s' == s;
    } else {
      SumSharesConcat(s, s'[..|s'| - 1]);
      assert (s + s')[..|s + s'| - 1] == s + s'[..|s'| - 1];
    }
  }

  function StorageShares(g: StorageGroup, keys: seq<Address>): seq<Share> {
    seq(|keys|, i requires 0 <= i < |keys| => Share(keys[i], Lookup(g, keys[i]), 1))
  }

  lemma {:induction false} StorageSum(g: StorageGroup, keys: seq<Address>)
    ensures Proper(StorageShares(g, keys)) && SumShares(StorageShares(g, keys)) == SumAt(g, keys) as real
  {
    if keys == [] {
    } else {
      StorageSum(g, keys[..|keys| - 1]);
      assert StorageShares(g, keys)[..|keys| - 1] == StorageShares(g, keys[..|keys| - 1]);
    }
  }

  // Every author of a file gets the same part of the unit's average.
  function FileShares(authors: seq<Address>, total: nat, fileCount: nat): seq<Share> {
    seq(|authors|, i requires 0 <= i < |authors| => Share(authors[i], total, fileCount * |authors|))
  }

  lemma {:induction false} EqualSharesSum(authors: seq<Address>, total: nat, den: nat)
    requires den > 0
    ensures var s := seq(|authors|, i requires 0 <= i < |authors| => Share(authors[i], total, den));
            Proper(s) && SumShares(s) == |authors| as real * (total as real / den as real)
  {
    if authors == [] {
    } else {
      var init := authors[..|authors| - 1];
      EqualSharesSum(init, total, den);
      var s := seq(|authors|, i requires 0 <= i < |authors| => Share(authors[i], total, den));
      assert s[..|s| - 1] == seq(|init|, i requires 0 <= i < |init| => Share(init[i], total, den));
    }
  }

  lemma FileSum(authors: seq<Address>, total: nat, fileCount: nat)
    requires authors != [] && fileCount > 0
    ensures Proper(FileShares(authors, total, fileCount))
    ensures SumShares(FileShares(authors, total, fileCount)) == total as real / fileCount as real
  {
    var n := |authors|;
    assert fileCount * n > 0;
    EqualSharesSum(authors, total, fileCount * n);
    Simplify(n, total, fileCount);
  }

  lemma Simplify(n: nat, total: nat, d: nat)
    requires n > 0 && d > 0
    ensures n as real * (total as real / (d * n) as real) == total as real / d as real
  {
    var q := total as real / d as real;
    assert q * d as real == total as real;
    assert (d * n) as real == d as real * n as real;
    assert total as real / (d * n) as real == q / n as real;
  }

  // The unit's usage: the average over its files.
  ghost function Average(files: map<Uri, nat>): nat {
    if files == map[] then 0 else Total(files) / |files|
  }

  function UnitShares(reg: Registry, files: seq<Uri>, total: nat, fileCount: nat): seq<Share>
    requires forall f <- files :: f in reg.authors
  {
    if files == [] then []
    else UnitShares(reg, files[..|files| - 1], total, fileCount) + FileShares(reg.authors[files[|files| - 1]], total, fileCount)
  }

  function Repeat(n: nat, q: real): real {
    if n == 0 then 0.0 else Repeat(n - 1, q) + q
  }

  lemma {:induction false} RepeatIsTimes(n: nat, q: real)
    ensures Repeat(n, q) == n as real * q
  {
    if n == 0 {
    } else {
      RepeatIsTimes(n - 1, q);
      assert (n - 1) as real * q + q == n as real * q;
    }
  }

  lemma RepeatWhole(n: nat, total: nat)
    requires n > 0
    ensures Repeat(n, total as real / n as real) == total as real
  {
    RepeatIsTimes(n, total as real / n as real);
  }

  lemma {:induction false} UnitSum(reg: Registry, files: seq<Uri>, total: nat, fileCount: nat, q: real)
    requires forall f <- files :: f in reg.authors && reg.authors[f] != []
    requires fileCount > 0 && q == total as real / fileCount as real
    ensures Proper(UnitShares(reg, files, total, fileCount))
    ensures SumShares(UnitShares(reg, files, total, fileCount)) == Repeat(|files|, q)
  {
    if files == [] {
    } else {
      var init, last := files[..|files| - 1], files[|files| - 1];
      UnitSum(reg, init, total, fileCount, q);
      assert last in files;
      AppendFile(UnitShares(reg, init, total, fileCount), reg.authors[last], total, fileCount, q);
    }
  }

  lemma AppendFile(shares: seq<Share>, authors: seq<Address>, total: nat, fileCount: nat, q: real)
    requires Proper(shares) && authors != [] && fileCount > 0 && q == total as real / fileCount as real
    ensures var s := shares + FileShares(authors, total, fileCount);
            Proper(s) && SumShares(s) == SumShares(shares) + q
  {
    FileSum(authors, total, fileCount);
    SumSharesConcat(shares, FileShares(authors, total, fileCount));
  }

  ghost predicate UnitsOk(reg: Registry, g: AuthorGroup, units: seq<Uri>) {
    forall u <- units :: u in g && Positive(g[u]) && forall f <- g[u] :: f in reg.authors && reg.authors[f] != []
  }

  ghost function AuthorShares(reg: Registry, g: AuthorGroup, units: seq<Uri>): seq<Share>
    requires UnitsOk(reg, g, units)
  {
    if units == [] then []
    else
      var u := units[|units| - 1];
      AuthorShares(reg, g, units[..|units| - 1]) + UnitShares(reg, Ascending(g[u].Keys), Average(g[u]), |g[u]|)
  }

  ghost function UnitTotals(g: AuthorGroup, units: seq<Uri>): nat
    requires forall u <- units :: u in g
  {
    if units == [] then 0 else UnitTotals(g, units[..|units| - 1]) + Average(g[units[|units| - 1]])
  }

  lemma {:induction false} AuthorSum(reg: Registry, g: AuthorGroup, units: seq<Uri>)
    requires UnitsOk(reg, g, units)
    ensures Proper(AuthorShares(reg, g, units))
    ensures SumShares(AuthorShares(reg, g, units)) == UnitTotals(g, units) as real
  {
    if units == [] {
    } else {
      var init, u := units[..|units| - 1], units[|units| - 1];
      AuthorSum(reg, g, init);
      UnitSumIsAverage(reg, g[u]);
      SumSharesConcat(AuthorShares(reg, g, init), UnitShares(reg, Ascending(g[u].Keys), Average(g[u]), |g[u]|));
    }
  }

  lemma UnitSumIsAverage(reg: Registry, files: map<Uri, nat>)
    requires Positive(files) && forall f <- files :: f in reg.authors && reg.authors[f] != []
    ensures var s := UnitShares(reg, Ascending(files.Keys), Average(files), |files|);
            Proper(s) && SumShares(s) == Average(files) as real
  {
    assert |Ascending(files.Keys)| == |files|;
    assert |files| > 0 by { var f :| f in files; }
    WholeUnit(reg, Ascending(files.Keys), Average(files), |files|);
  }

  lemma WholeUnit(reg: Registry, files: seq<Uri>, total: nat, n: nat)
    requires forall f <- files :: f in reg.authors && reg.authors[f] != []
    requires |files| == n > 0
    ensures Proper(UnitShares(reg, files, total, n)) && SumShares(UnitShares(reg, files, total, n)) == total as real
  {
    UnitSum(reg, files, total, n, total as real / n as real);
    RepeatWhole(n, total);
  }

  // The average of positive counts is positive: the code's check cannot fire.
  lemma AverageIsPositive<K(!new)>(files: map<K, nat>)
    requires Positive(files)
    ensures Total(files) / |files| > 0
  {
    TotalAtLeast(files);
  }

  lemma {:induction false} TotalAtLeast<K(!new)>(m: map<K, nat>)
    requires forall k <- m :: m[k] > 0
    ensures Total(m) >= |m|
    decreases |m|
  {
    if m == map[] {
    } else {
      var k :| k in m;
      TotalRemove(m, k);
      TotalAtLeast(m - {k});
      assert m.Keys == (m - {k}).Keys + {k};
    }
  }

  // ----- Channels -----

  ghost function MaxOf<K(!new)>(m: map<K, nat>): (r: nat)
    requires m != map[]
    ensures (exists k <- m :: m[k] == r) && forall k <- m :: m[k] <= r
    decreases |m|
  {
    var k :| k in m;
    var rest := m - {k};
    assert m.Keys == rest.Keys + {k};
    if rest == map[] then
      m[k]
    else
      var r := MaxOf(rest);
      if m[k] < r then r else m[k]
  }

  ghost function BestFiles(contents: map<nat, map<(Uri, Uri), nat>>): map<nat, nat>
    requires OkContents(contents)
  {
    assert forall i <- contents :: Positive(contents[i]) && contents[i] != map[];
    map i | i in contents :: MaxOf(contents[i])
  }

  // Views of a channel for an owner: per content the best file, added up over contents.
  ghost function Views(contents: map<nat, map<(Uri, Uri), nat>>): nat
    requires OkContents(contents)
  {
    Total(BestFiles(contents))
  }

  lemma ViewsArePositive(contents: map<nat, map<(Uri, Uri), nat>>)
    requires OkContents(contents)
    ensures Views(contents) > 0
  {
    var m := BestFiles(contents);
    var i :| i in contents;
    TotalSet(m, i, 0);
    assert Lookup(m, i) == MaxOf(contents[i]) && Positive(contents[i]);
  }

  function PairShares(server: Address, owner: Address, count: nat): seq<Share> {
    if server == owner then [Share(server, 2 * count, 2)]
    else [Share(owner, count, 2), Share(server, count, 2)]
  }

  lemma PairSum(server: Address, owner: Address, count: nat)
    ensures Proper(PairShares(server, owner, count)) && SumShares(PairShares(server, owner, count)) == count as real
  {
    var s := PairShares(server, owner, count);
    var none: seq<Share> := [];
    assert SumShares(none) == 0.0;
    if server == owner {
      assert s[..0] == none;
      assert SumShares(s) == SumShares(s[..0]) + (2 * count) as real / 2.0;
    } else {
      assert s[..1] == [Share(owner, count, 2)] && s[..1][..0] == none;
      assert SumShares(s[..1]) == SumShares(s[..1][..0]) + count as real / 2.0;
      assert SumShares(s) == SumShares(s[..1]) + count as real / 2.0;
    }
  }

  ghost function ServerShares(server: Address, m: map<Address, map<nat, map<(Uri, Uri), nat>>>, owners: seq<Address>): seq<Share>
    requires forall o <- owners :: o in m && OkContents(m[o])
  {
    if owners == [] then []
    else
      var o := owners[|owners| - 1];
      assert o in owners;
      ServerShares(server, m, owners[..|owners| - 1]) + PairShares(server, o, Views(m[o]))
  }

  ghost function ServerViews(m: map<Address, map<nat, map<(Uri, Uri), nat>>>, owners: seq<Address>): nat
    requires forall o <- owners :: o in m && OkContents(m[o])
  {
    if owners == [] then 0
    else
      var o := owners[|owners| - 1];
      assert o in owners;
      ServerViews(m, owners[..|owners| - 1]) + Views(m[o])
  }

  lemma {:induction false} ServerSum(server: Address, m: map<Address, map<nat, map<(Uri, Uri), nat>>>, owners: seq<Address>)
    requires forall o <- owners :: o in m && OkContents(m[o])
    ensures Proper(ServerShares(server, m, owners))
    ensures SumShares(ServerShares(server, m, owners)) == ServerViews(m, owners) as real
    ensures owners != [] ==> ServerViews(m, owners) > 0
  {
    if owners == [] {
    } else {
      var o := owners[|owners| - 1];
      ServerSum(server, m, owners[..|owners| - 1]);
      PairSum(server, o, Views(m[o]));
      ViewsArePositive(m[o]);
      SumSharesConcat(ServerShares(server, m, owners[..|owners| - 1]), PairShares(server, o, Views(m[o])));
    }
  }

  ghost predicate ServersOk(g: ContentGroup, servers: seq<Address>) {
    forall c <- servers :: c in g && OkOwners(g[c])
  }

  ghost function ChannelShares(g: ContentGroup, servers: seq<Address>): seq<Share>
    requires ServersOk(g, servers)
  {
    if servers == [] then []
    else
      var c := servers[|servers| - 1];
      ChannelShares(g, servers[..|servers| - 1]) + ServerShares(c, g[c], Ascending(g[c].Keys))
  }

  ghost function ChannelViews(g: ContentGroup, servers: seq<Address>): nat
    requires ServersOk(g, servers)
  {
    if servers == [] then 0
    else
      var c := servers[|servers| - 1];
      ChannelViews(g, servers[..|servers| - 1]) + ServerViews(g[c], Ascending(g[c].Keys))
  }

  lemma {:induction false} ChannelSum(g: ContentGroup, servers: seq<Address>)
    requires ServersOk(g, servers)
    ensures Proper(ChannelShares(g, servers))
    ensures SumShares(ChannelShares(g, servers)) == ChannelViews(g, servers) as real
    ensures servers != [] ==> ChannelViews(g, servers) > 0
  {
    if servers == [] {
    } else {
      var c := servers[|servers| - 1];
      ChannelSum(g, servers[..|servers| - 1]);
      assert c in servers;
      ServerSum(c, g[c], Ascending(g[c].Keys));
      assert g[c] != map[] && Ascending(g[c].Keys) != [];
      SumSharesConcat(ChannelShares(g, servers[..|servers| - 1]), ServerShares(c, g[c], Ascending(g[c].Keys)));
    }
  }

  // ----- The whole result -----

  datatype Stats = Stats(authors: seq<Share>, channels: seq<Share>, storages: seq<Share>, viewed: seq<Uri>)

  ghost function StatsOf(reg: Registry, g: Groups): Stats
    requires OkGroups(reg, g)
  {
    var units, servers, keys := Ascending(g.authors.Keys), Ascending(g.contents.Keys), Ascending(g.storages.Keys);
    Stats(Scaled(AuthorShares(reg, g.authors, units), UnitTotals(g.authors, units)),
          Scaled(ChannelShares(g.contents, servers), ChannelViews(g.contents, servers)),
          Scaled(StorageShares(g.storages, keys), SumAt(g.storages, keys)),
          units)
  }

  predicate Whole(shares: seq<Share>) {
    Proper(shares) && shares != [] && SumShares(shares) == 1.0
  }

  predicate OkStats(s: Stats) {
    || s == Stats([], [], [], [])
    || (Whole(s.authors) && Whole(s.channels) && Whole(s.storages) && s.viewed != [] && Distinct(s.viewed))
  }

  lemma WholeWhenScaled(shares: seq<Share>, t: nat)
    requires Proper(shares) && t > 0 && SumShares(shares) == t as real
    ensures Whole(Scaled(shares, t))
  {
    ScaledSum(shares, t);
    OneWhole(t as real);
    NotEmpty(shares);
  }

  lemma OneWhole(x: real)
    requires x > 0.0
    ensures x / x == 1.0
  {}

  lemma NotEmpty(shares: seq<Share>)
    requires Proper(shares) && SumShares(shares) != 0.0
    ensures shares != []
  {}

  lemma AuthorsWhole(reg: Registry, g: Groups)
    requires OkGroups(reg, g) && g.authors != map[]
    ensures Whole(StatsOf(reg, g).authors)
  {
    var units := Ascending(g.authors.Keys);
    AuthorSum(reg, g.authors, units);
    assert units != [];
    var u := units[|units| - 1];
    assert u in g.authors;
    AverageIsPositive(g.authors[u]);
    WholeWhenScaled(AuthorShares(reg, g.authors, units), UnitTotals(g.authors, units));
  }

  lemma StoragesWhole(reg: Registry, g: Groups)
    requires OkGroups(reg, g) && g.storages != map[]
    ensures Whole(StatsOf(reg, g).storages)
  {
    var keys := Ascending(g.storages.Keys);
    StorageSum(g.storages, keys);
    assert keys != [];
    assert keys[|keys| - 1] in g.storages;
    WholeWhenScaled(StorageShares(g.storages, keys), SumAt(g.storages, keys));
  }

  lemma ChannelsWhole(reg: Registry, g: Groups)
    requires OkGroups(reg, g) && g.contents != map[]
    ensures Whole(StatsOf(reg, g).channels)
  {
    var servers := Ascending(g.contents.Keys);
    ChannelSum(g.contents, servers);
    assert servers != [];
    WholeWhenScaled(ChannelShares(g.contents, servers), ChannelViews(g.contents, servers));
  }

  // Either nothing was counted, or all three groups of shares are exactly a whole.
  lemma StatsAreWhole(reg: Registry, counted: seq<Report>)
    requires Known(reg, counted)
    ensures OkGroups(reg, Group(reg, counted)) && OkStats(StatsOf(reg, Group(reg, counted)))
    ensures counted == [] <==> StatsOf(reg, Group(reg, counted)).viewed == []
  {
    GroupIsOk(reg, counted);
    var g := Group(reg, counted);
    if counted != [] {
      AuthorsWhole(reg, g);
      StoragesWhole(reg, g);
      ChannelsWhole(reg, g);
      assert Ascending(g.authors.Keys) != [];
    } else {
      assert StatsOf(reg, g) == Stats([], [], [], []);
    }
  }

  // ----- The code -----

  type Triple = (Address, Uri, Address)

  // Adds up what each channel claims; None where the code throws on a zero count.
  method CountChannels(reports: seq<Report>) returns (m: Option<map<Triple, nat>>)
    ensures m.None? <==> exists k :: 0 <= k < |reports| && reports[k].count == 0
    ensures m.Some? ==> forall c, f, s :: Lookup(m.value, (c, f, s)) == ChannelCount(reports, c, f, s)
  {
    var counts: map<Triple, nat> := map[];
    for n := 0 to |reports|
      invariant forall k :: 0 <= k < n ==> reports[k].count != 0
      invariant forall c, f, s :: Lookup(counts, (c, f, s)) == ChannelCount(reports[..n], c, f, s)
    {
      assert reports[..n + 1][..n] == reports[..n];
      var r := reports[n];
      if r.count == 0 { return None; }
      counts := AddTo(counts, (r.server, r.file, r.peer), r.count);
    }
    assert reports[..|reports|] == reports;
    return Some(counts);
  }

  method CrossVerify(ghost reports: seq<Report>, counts: map<Triple, nat>, storageReports: seq<Report>) returns (verified: Option<set<Triple>>)
    requires forall c, f, s :: Lookup(counts, (c, f, s)) == ChannelCount(reports, c, f, s)
    ensures verified.None? <==> exists k :: 0 <= k < |storageReports| && storageReports[k].count == 0
    ensures verified.Some? ==> forall c, f, s :: (c, f, s) in verified.value <==> Agreed(reports, storageReports, c, f, s)
  {
    var agreed: set<Triple> := {};
    for n := 0 to |storageReports|
      invariant forall k :: 0 <= k < n ==> storageReports[k].count != 0
      invariant forall c, f, s :: (c, f, s) in agreed <==>
                  exists k :: 0 <= k < n && Confirms(storageReports[k], reports, c, f, s)
    {
      var r := storageReports[n];
      var known := Lookup(counts, (r.peer, r.file, r.server));
      if r.count == 0 { return None; }
      ghost var before := agreed;
      if known > 0 && !Mismatch(known, r.count) { agreed := agreed + {(r.peer, r.file, r.server)}; }
      forall c, f, s
        ensures (c, f, s) in agreed <==> exists k :: 0 <= k < n + 1 && Confirms(storageReports[k], reports, c, f, s)
      {
        assert (c, f, s) in agreed <==> (c, f, s) in before || Confirms(r, reports, c, f, s);
      }
    }
    return Some(agreed);
  }

  // Adds the counted reports to the three groups.
  method GroupViews(reg: Registry, reports: seq<Report>, ghost storageReports: seq<Report>, verified: set<Triple>) returns (g: Groups)
    requires Known(reg, reports)
    requires forall c, f, s :: (c, f, s) in verified <==> Agreed(reports, storageReports, c, f, s)
    ensures Known(reg, Counted(reports, storageReports, reports))
    ensures g == Group(reg, Counted(reports, storageReports, reports))
  {
    g := Groups(map[], map[], map[]);
    for n := 0 to |reports|
      invariant Known(reg, Counted(reports, storageReports, reports[..n]))
      invariant g == Group(reg, Counted(reports, storageReports, reports[..n]))
    {
      assert reports[..n + 1][..n] == reports[..n];
      var r := reports[n];
      ghost var counted := Counted(reports, storageReports, reports[..n]);
      if (r.server, r.file, r.peer) in verified {
        assert (counted + [r])[..|counted|] == counted;
        g := Groups(AddTo(g.storages, r.peer, r.count),
                    g.authors[r.unit := AddTo(Inner(g.authors, r.unit), r.file, r.count)],
                    AddView(g.contents, reg.units[r.unit], r));
      }
    }
    assert reports[..|reports|] == reports;
  }

  method SumOf<K(==, !new)>(m: map<K, nat>) returns (total: nat)
    ensures total == Total(m)
  {
    total := 0;
    var rest := m;
    while rest != map[]
      invariant total + Total(rest) == Total(m)
      decreases rest.Keys
    {
      var k :| k in rest;
      TotalRemove(rest, k);
      total, rest := total + rest[k], rest - {k};
    }
  }

  method Largest<K(==, !new)>(m: map<K, nat>) returns (r: nat)
    requires m != map[]
    ensures r == MaxOf(m)
  {
    r := 0;
    var rest := m;
    while rest != map[]
      invariant rest.Keys <= m.Keys && forall k <- rest :: rest[k] == m[k]
      invariant forall k <- m :: k in rest || m[k] <= r
      invariant r == 0 || exists k <- m :: m[k] == r
      decreases rest.Keys
    {
      var k :| k in rest;
      r, rest := Max(r, rest[k]), rest - {k};
    }
    ghost var k :| k in m && m[k] == MaxOf(m);
  }

  // The default counting function for channels.
  method CountViews(contents: map<nat, map<(Uri, Uri), nat>>) returns (count: nat)
    requires OkContents(contents)
    ensures count == Views(contents)
  {
    ghost var left := BestFiles(contents);
    count := 0;
    var rest := contents;
    while rest != map[]
      invariant rest.Keys == left.Keys <= contents.Keys
      invariant forall i <- rest :: rest[i] == contents[i] && left[i] == BestFiles(contents)[i]
      invariant count + Total(left) == Views(contents)
      decreases rest.Keys
    {
      var i :| i in rest;
      TotalRemove(left, i);
      assert Positive(contents[i]);
      var best := Largest(rest[i]);
      count, rest, left := count + best, rest - {i}, left - {i};
    }
    assert left == map[];
  }

  // The four loops below walk the keys of a sorted map in the order they are handed.
  method StorageResult(g: StorageGroup, keys: seq<Address>) returns (shares: seq<Share>)
    ensures shares == Scaled(StorageShares(g, keys), SumAt(g, keys))
  {
    var total := 0;
    shares := [];
    for n := 0 to |keys|
      invariant shares == StorageShares(g, keys[..n]) && total == SumAt(g, keys[..n])
    {
      assert keys[..n + 1][..n] == keys[..n];
      total := total + Lookup(g, keys[n]);
      shares := shares + [Share(keys[n], Lookup(g, keys[n]), 1)];
    }
    assert keys[..|keys|] == keys;
    shares := Scaled(shares, total);
  }

  method AuthorsOfFile(authors: seq<Address>, total: nat, fileCount: nat) returns (shares: seq<Share>)
    ensures shares == FileShares(authors, total, fileCount)
  {
    shares := [];
    for n := 0 to |authors|
      invariant |shares| == n
      invariant forall i :: 0 <= i < n ==> shares[i] == Share(authors[i], total, fileCount * |authors|)
    {
      shares := shares + [Share(authors[n], total, fileCount * |authors|)];
    }
  }

  method AuthorsOfUnit(reg: Registry, files: seq<Uri>, total: nat) returns (shares: seq<Share>)
    requires forall f <- files :: f in reg.authors
    ensures shares == UnitShares(reg, files, total, |files|)
  {
    shares := [];
    for n := 0 to |files|
      invariant shares == UnitShares(reg, files[..n], total, |files|)
    {
      assert files[..n + 1][..n] == files[..n];
      var some := AuthorsOfFile(reg.authors[files[n]], total, |files|);
      shares := shares + some;
    }
    assert files[..|files|] == files;
  }

  method UnitAverage(files: map<Uri, nat>) returns (total: Option<nat>)
    requires Positive(files)
    ensures total == Some(Average(files)) && Average(files) > 0
  {
    var sum := SumOf(files);
    if |files| == 0 { return None; }
    AverageIsPositive(files);
    sum := sum / |files|;
    if sum == 0 { return None; }
    return Some(sum);
  }

  // None where one of the code's checks throws.
  method AuthorResult(reg: Registry, g: AuthorGroup, units: seq<Uri>) returns (shares: Option<seq<Share>>)
    requires UnitsOk(reg, g, units)
    ensures shares == Some(Scaled(AuthorShares(reg, g, units), UnitTotals(g, units)))
  {
    var all, sum := [], 0;
    for n := 0 to |units|
      invariant all == AuthorShares(reg, g, units[..n]) && sum == UnitTotals(g, units[..n])
    {
      assert units[..n + 1][..n] == units[..n];
      assert units[n] in units;
      var files := g[units[n]];
      var total := UnitAverage(files);
      if total.None? { return None; }
      var ofUnit := AuthorsOfUnit(reg, Ascending(files.Keys), total.value);
      all, sum := all + ofUnit, sum + total.value;
    }
    assert units[..|units|] == units;
    return Some(Scaled(all, sum));
  }

  method ChannelsOfServer(server: Address, m: map<Address, map<nat, map<(Uri, Uri), nat>>>, owners: seq<Address>)
    returns (shares: seq<Share>, count: nat)
    requires forall o <- owners :: o in m && OkContents(m[o])
    ensures shares == ServerShares(server, m, owners) && count == ServerViews(m, owners)
  {
    shares, count := [], 0;
    for n := 0 to |owners|
      invariant shares == ServerShares(server, m, owners[..n]) && count == ServerViews(m, owners[..n])
    {
      assert owners[..n + 1][..n] == owners[..n];
      assert owners[n] in owners;
      var views := CountViews(m[owners[n]]);
      shares := shares + PairShares(server, owners[n], views);
      count := count + views;
    }
    assert owners[..|owners|] == owners;
  }

  lemma OneServerMore(g: ContentGroup, servers: seq<Address>, n: nat)
    requires ServersOk(g, servers) && n < |servers|
    ensures servers[n] in g
    ensures ServersOk(g, servers[..n]) && ServersOk(g, servers[..n + 1])
    ensures var m := g[servers[n]];
            && ChannelShares(g, servers[..n + 1]) == ChannelShares(g, servers[..n]) + ServerShares(servers[n], m, Ascending(m.Keys))
            && ChannelViews(g, servers[..n + 1]) == ChannelViews(g, servers[..n]) + ServerViews(m, Ascending(m.Keys))
  {
    assert servers[n] in servers;
    assert servers[..n + 1][..n] == servers[..n];
  }

  method ChannelResult(g: ContentGroup, servers: seq<Address>) returns (shares: seq<Share>)
    requires ServersOk(g, servers)
    ensures shares == Scaled(ChannelShares(g, servers), ChannelViews(g, servers))
  {
    var all, total := [], 0;
    for n := 0 to |servers|
      invariant all == ChannelShares(g, servers[..n]) && total == ChannelViews(g, servers[..n])
    {
      assert servers[n] in servers;
      OneServerMore(g, servers, n);
      var some, count := ChannelsOfServer(servers[n], g[servers[n]], Ascending(g[servers[n]].Keys));
      all, total := all + some, total + count;
    }
    assert servers[..|servers|] == servers;
    return Scaled(all, total);
  }

  // The reports name positive counts, and channels report registered files and units.
  predicate Acceptable(reg: Registry, reports: seq<Report>, storageReports: seq<Report>) {
    && (forall k :: 0 <= k < |reports| ==> reports[k].count != 0 && reports[k].file in reg.authors && reports[k].unit in reg.units)
    && (forall k :: 0 <= k < |storageReports| ==> storageReports[k].count != 0)
  }

  lemma {:induction false} CountedKnown(reg: Registry, all: seq<Report>, storageReports: seq<Report>, reports: seq<Report>)
    requires Acceptable(reg, reports, storageReports)
    ensures Known(reg, Counted(all, storageReports, reports))
  {
    if reports == [] {
    } else {
      CountedKnown(reg, all, storageReports, reports[..|reports| - 1]);
    }
  }

  // The shares that the reports of a block give; None where the code throws.
  ghost function StatsIn(reg: Registry, reports: seq<Report>, storageReports: seq<Report>): (stats: Option<Stats>)
    ensures stats.Some? <==> Acceptable(reg, reports, storageReports)
    ensures stats.Some? ==> OkStats(stats.value) && Distinct(stats.value.viewed)
  {
    if !Acceptable(reg, reports, storageReports) then None
    else
      var counted := Counted(reports, storageReports, reports);
      CountedKnown(reg, reports, storageReports, reports);
      StatsAreWhole(reg, counted);
      Some(StatsOf(reg, Group(reg, counted)))
  }

  method CollectGroups(reg: Registry, reports: seq<Report>, storageReports: seq<Report>) returns (g: Option<Groups>)
    ensures g.Some? <==> Acceptable(reg, reports, storageReports)
    ensures g.Some? ==>
              && Known(reg, Counted(reports, storageReports, reports))
              && g.value == Group(reg, Counted(reports, storageReports, reports))
  {
    var counts := CountChannels(reports);
    if counts.None? { return None; }
    var verified := CrossVerify(reports, counts.value, storageReports);
    if verified.None? { return None; }
    if k :| 0 <= k < |reports| && (reports[k].file !in reg.authors || reports[k].unit !in reg.units) { return None; }
    var groups := GroupViews(reg, reports, storageReports, verified.value);
    return Some(groups);
  }

  // None where the code throws.
  method ValidateStatistics(reg: Registry, reports: seq<Report>, storageReports: seq<Report>) returns (stats: Option<Stats>)
    ensures stats == StatsIn(reg, reports, storageReports)
    ensures stats.Some? ==>
              var counted := Counted(reports, storageReports, reports);
              && Known(reg, counted) && OkGroups(reg, Group(reg, counted))
              && stats.value == StatsOf(reg, Group(reg, counted)) && OkStats(stats.value) && Distinct(stats.value.viewed)
  {
    var g := CollectGroups(reg, reports, storageReports);
    if g.None? { return None; }
    StatsAreWhole(reg, Counted(reports, storageReports, reports));
    stats := CollectResults(reg, g.value);
  }

  method CollectResults(reg: Registry, g: Groups) returns (stats: Option<Stats>)
    requires OkGroups(reg, g)
    ensures stats == Some(StatsOf(reg, g))
  {
    var authors := AuthorResult(reg, g.authors, Ascending(g.authors.Keys));
    if authors.None? { return None; }
    var channels := ChannelResult(g.contents, Ascending(g.contents.Keys));
    var storages := StorageResult(g.storages, Ascending(g.storages.Keys));
    return Some(Stats(authors.value, channels, storages, Ascending(g.authors.Keys)));
  }
}
