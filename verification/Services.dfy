/** Which of the service reports in a block count: of each channel and each storage the last one. */
module Services {
  import opened Basics
  import opened Ordering
  import opened Statistics

  // The registered role of a node.
  datatype Role = Miner | Channel | Storage

  type Roles = map<Address, Role>

  datatype CountItem = CountItem(file: Uri, unit: Uri, peer: Address, count: nat)

  datatype Service = Service(server: Address, items: seq<CountItem>)

  // A registered server is a channel or a storage; others are passed over.
  predicate Servers(roles: Roles, services: seq<Service>) {
    forall k :: 0 <= k < |services| && services[k].server in roles ==> !roles[services[k].server].Miner?
  }

  // The last report of every server with the role.
  function LastReports(roles: Roles, services: seq<Service>, role: Role): map<Address, seq<CountItem>> {
    if services == [] then map[]
    else
      var before, s := LastReports(roles, services[..|services| - 1], role), services[|services| - 1];
      if s.server in roles && roles[s.server] == role then before[s.server := s.items] else before
  }

  predicate IsLast(services: seq<Service>, k: nat) {
    k < |services| && forall j :: k < j < |services| ==> services[j].server != services[k].server
  }

  // A server's report counts exactly if it has the role, and then it is its last one.
  lemma {:induction false} LastOneCounts(roles: Roles, services: seq<Service>, role: Role, server: Address)
    ensures var m := LastReports(roles, services, role);
            && (server in m <==> server in roles && roles[server] == role && exists k: nat :: IsLast(services, k) && services[k].server == server)
            && (server in m ==> forall k: nat :: IsLast(services, k) && services[k].server == server ==> m[server] == services[k].items)
  {
    if services == [] {
    } else {
      var init, n := services[..|services| - 1], |services| - 1;
      LastOneCounts(roles, init, role, server);
      assert IsLast(services, n);
      if services[n].server != server {
        forall k: nat | k < n && services[k].server == server ensures IsLast(services, k) <==> IsLast(init, k) {
          if IsLast(init, k) { assert forall j :: k < j < n ==> services[j] == init[j]; }
          if IsLast(services, k) { assert forall j :: k < j < n ==> init[j] == services[j]; }
        }
        if k: nat :| IsLast(services, k) && services[k].server == server { assert IsLast(init, k) && init[k].server == server; }
        if k: nat :| IsLast(init, k) && init[k].server == server { assert IsLast(services, k) && services[k].server == server; }
        forall k: nat | IsLast(services, k) && services[k].server == server ensures IsLast(init, k) && init[k] == services[k] {}
      }
    }
  }

  // ----- As reports, item by item -----

  function ReportsOf(server: Address, items: seq<CountItem>): seq<Report> {
    seq(|items|, i requires 0 <= i < |items| => Report(server, items[i].file, items[i].unit, items[i].peer, items[i].count))
  }

  function ReportsFrom(m: map<Address, seq<CountItem>>, servers: seq<Address>): seq<Report>
    requires forall s <- servers :: s in m
  {
    if servers == [] then []
    else
      var last := servers[|servers| - 1];
      assert last in servers;
      ReportsFrom(m, servers[..|servers| - 1]) + ReportsOf(last, m[last])
  }

  function Counting(roles: Roles, services: seq<Service>, role: Role): seq<Report> {
    var m := LastReports(roles, services, role);
    ReportsFrom(m, Ascending(m.Keys))
  }

  lemma NothingReported(roles: Roles)
    ensures Servers(roles, []) && forall role: Role :: Counting(roles, [], role) == []
  {
    forall role: Role ensures Counting(roles, [], role) == [] { assert LastReports(roles, [], role) == map[]; }
  }

  // ----- The code -----

  // Two maps filled in one pass, a later report of a server overwriting an earlier one; false
  // where the code throws.
  method CollectServices(roles: Roles, services: seq<Service>)
    returns (ok: bool, channels: map<Address, seq<CountItem>>, storages: map<Address, seq<CountItem>>)
    ensures ok <==> Servers(roles, services)
    ensures ok ==> channels == LastReports(roles, services, Channel) && storages == LastReports(roles, services, Storage)
  {
    channels, storages := map[], map[];
    for n := 0 to |services|
      invariant Servers(roles, services[..n])
      invariant channels == LastReports(roles, services[..n], Channel) && storages == LastReports(roles, services[..n], Storage)
    {
      assert services[..n + 1][..n] == services[..n];
      var s := services[n];
      if s.server in roles {
        match roles[s.server]
        case Miner => return false, channels, storages;
        case Channel => channels := channels[s.server := s.items];
        case Storage => storages := storages[s.server := s.items];
      }
    }
    assert services[..|services|] == services;
    ok := true;
  }

  method ListItems(server: Address, items: seq<CountItem>) returns (reports: seq<Report>)
    ensures reports == ReportsOf(server, items)
  {
    reports := [];
    for i := 0 to |items|
      invariant |reports| == i && forall k :: 0 <= k < i ==> reports[k] == ReportsOf(server, items)[k]
    {
      reports := reports + [Report(server, items[i].file, items[i].unit, items[i].peer, items[i].count)];
    }
  }

  lemma ServerMore(m: map<Address, seq<CountItem>>, servers: seq<Address>, n: nat)
    requires n < |servers| && forall s <- servers :: s in m
    ensures servers[n] in m && (forall s <- servers[..n] :: s in m) && (forall s <- servers[..n + 1] :: s in m)
    ensures ReportsFrom(m, servers[..n + 1]) == ReportsFrom(m, servers[..n]) + ReportsOf(servers[n], m[servers[n]])
  {
    assert servers[n] in servers;
    assert servers[..n + 1][..n] == servers[..n];
  }

  method ListReports(m: map<Address, seq<CountItem>>) returns (reports: seq<Report>)
    ensures reports == ReportsFrom(m, Ascending(m.Keys))
  {
    var servers := Ascending(m.Keys);
    reports := [];
    for n := 0 to |servers|
      invariant reports == ReportsFrom(m, servers[..n])
    {
      ServerMore(m, servers, n);
      var some := ListItems(servers[n], m[servers[n]]);
      reports := reports + some;
    }
    assert servers[..|servers|] == servers;
  }
}
