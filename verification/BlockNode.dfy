/**
 Accepting and reverting a block on the node's stores: the loops over its transactions, the
 viewed units, the sponsorships due to expire and the rewards.
 */
module BlockNode {
  import opened Basics
  import opened Totals
  import opened Ordering
  import opened Rewards
  import opened Statistics
  import opened Services
  import opened Sponsorship
  import opened Books
  import opened DocumentValues
  import opened DocumentStore
  import opened BlockDocs
  import opened BlockRewards
  import opened Transactions
  import opened Blocks
  import opened NodeStores
  import opened Disorder
  import opened RewardParts
  import Balances

  // ----- Returns for cancelling transactions -----

  lemma {:induction false} ReturnsOfPrefix(d: Docs, txs: seq<Tx>, n: nat)
    requires n <= |txs| && CancelReturns(d, txs[..n]).None?
    ensures CancelReturns(d, txs).None?
    decreases |txs| - n
  {
    if n < |txs| {
      assert txs[..n + 1][..n] == txs[..n];
      ReturnsOfPrefix(d, txs, n + 1);
    } else {
      assert txs[..n] == txs;
    }
  }

  method CollectReturns(docs: Documents, txs: seq<Tx>) returns (ok: bool, back: map<Address, Amount>)
    ensures CancelReturns(docs.Value(), txs) == if ok then Some(back) else None
  {
    back := map[];
    for n := 0 to |txs|
      invariant CancelReturns(docs.Value(), txs[..n]) == Some(back)
    {
      assert txs[..n + 1][..n] == txs[..n];
      var action := txs[n].action;
      if action.CancelSponsor? {
        var hash := action.hash;
        if hash !in docs.blockOf || docs.blockOf[hash] !in docs.expiring || hash !in docs.expiring[docs.blockOf[hash]]
           || docs.expiring[docs.blockOf[hash]][hash].manuallyCancelled == 0 {
          ReturnsOfPrefix(docs.Value(), txs, n + 1);
          return false, back;
        }
        var amount := docs.expiring[docs.blockOf[hash]][hash].manuallyCancelled;
        back := back[action.sponsor := Lookup(back, action.sponsor) + amount];
      }
    }
    assert txs[..|txs|] == txs;
    return true, back;
  }

  // ----- Using the viewed units -----

  lemma MoveOne<K, V>(all: map<K, V>, done: map<K, V>, rest: map<K, V>, k: K)
    requires all == done + rest && done.Keys !! rest.Keys && k in rest
    ensures all == done[k := rest[k]] + (rest - {k}) && done[k := rest[k]].Keys !! (rest - {k}).Keys
  {}

  lemma NoteOne(applied: map<Hash, Amount>, done: map<Hash, Payment>, hash: Hash, p: Payment)
    requires hash !in done
    ensures applied + Amounts(done[hash := p]) == (applied + Amounts(done))[hash := p.amount]
    ensures Total(Amounts(done[hash := p])) == Total(Amounts(done)) + p.amount
  {
    AmountsGrow(done, hash, p);
  }

  // Notes the payments of one unit; `ok` is false where a sponsorship was paid before.
  method NotePayments(sponsored: Amount, applied: map<Hash, Amount>, pays: map<Hash, Payment>)
    returns (ok: bool, sponsored': Amount, applied': map<Hash, Amount>)
    ensures ok <==> pays.Keys !! applied.Keys
    ensures ok ==> sponsored' == sponsored + Total(Amounts(pays)) && applied' == applied + Amounts(pays)
  {
    sponsored', applied' := sponsored, applied;
    ghost var done: map<Hash, Payment> := map[];
    EmptyAmounts();
    var rest := pays;
    while rest != map[]
      invariant rest.Keys !! done.Keys && pays == done + rest
      invariant forall h <- done :: h !in applied
      invariant sponsored' == sponsored + Total(Amounts(done))
      invariant applied' == applied + Amounts(done)
      decreases rest.Keys
    {
      var hash :| hash in rest;
      assert hash in pays;
      if hash in applied' { return false, sponsored', applied'; }
      sponsored' := sponsored' + rest[hash].amount;
      applied' := applied'[hash := rest[hash].amount];
      NoteOne(applied, done, hash, rest[hash]);
      MoveOne(pays, done, rest, hash);
      done := done[hash := rest[hash]];
      rest := rest - {hash};
    }
    assert pays == done;
    return true, sponsored', applied';
  }

  lemma {:induction false} PrefixOfUses(v: Docs, c: Chain, uris: seq<Uri>, n: nat, dir: Direction)
    requires n <= |uris| && UseAll(v, c, uris[..n], dir).None?
    ensures UseAll(v, c, uris, dir).None?
    decreases |uris| - n
  {
    if n < |uris| {
      assert uris[..n + 1][..n] == uris[..n];
      PrefixOfUses(v, c, uris, n + 1, dir);
    } else {
      assert uris[..n] == uris;
    }
  }

  // Going forward, the unit must not have been used at this time or later.
  predicate Usable(v: Docs, c: Chain, uri: Uri, dir: Direction) {
    dir.Forward? && uri in v.books ==> Fresh(v.books[uri], c.Now())
  }

  predicate UsableAt(v: Docs, c: Chain, uris: seq<Uri>, dir: Direction, n: nat)
    requires n < |uris|
  {
    UseAll(v, c, uris[..n], dir).Some? ==> Usable(UseAll(v, c, uris[..n], dir).value.docs, c, uris[n], dir)
  }

  ghost predicate AllUsable(v: Docs, c: Chain, uris: seq<Uri>, dir: Direction) {
    forall n :: 0 <= n < |uris| ==> UsableAt(v, c, uris, dir, n)
  }

  lemma PaymentsJoin(m: map<Hash, Payment>, m': map<Hash, Payment>)
    requires m.Keys !! m'.Keys
    ensures Amounts(m + m') == Amounts(m) + Amounts(m')
    ensures Total(Amounts(m + m')) == Total(Amounts(m)) + Total(Amounts(m'))
  {
    TotalUnion(m, m');
  }

  lemma UseOneMore(v: Docs, c: Chain, uris: seq<Uri>, n: nat, dir: Direction)
    requires n < |uris| && UseAll(v, c, uris[..n], dir).Some?
    ensures var before := UseAll(v, c, uris[..n], dir).value;
            var step := UseStep(before.docs, c, uris[n], dir, "");
            UseAll(v, c, uris[..n + 1], dir) ==
            if step.Some? && step.value.pays.Keys !! before.pays.Keys
            then Some(Progress(step.value.docs, before.pays + step.value.pays)) else None
  {
    assert uris[..n + 1][..n] == uris[..n];
  }

  // Going backward, indexes are sorted by the sort of the store.
  ghost predicate SortOf(docs: Documents, dir: Direction) {
    dir.Backward? ==> dir.sort == docs.sort
  }

  // Different units are used independently.
  lemma AllForwardUsable(d: Docs, c: Chain, uris: seq<Uri>)
    requires AllOk(d, c.Now()) && Distinct(uris)
    ensures AllUsable(d, c, uris, Forward)
  {
    forall n | 0 <= n < |uris| ensures UsableAt(d, c, uris, Forward, n) {
      var init, uri := uris[..n], uris[n];
      if UseAll(d, c, init, Forward).Some? {
        assert uri !in init;
        UseAllForward(d, c, c.Now(), init);
        if uri in d.books {
          EffectBooks(d, c.Now(), Elements(init), {}, uri);
          MarkSetIsOk(d.books[uri], c.Now(), HashesOf({}, uri));
        }
      }
    }
  }

  method UseOne(docs: Documents, c: Chain, uri: Uri, dir: Direction) returns (ok: bool, pays: map<Hash, Payment>)
    requires docs.Indexes() && Usable(docs.Value(), c, uri, dir) && SortOf(docs, dir)
    modifies docs`units, docs`expiring
    ensures ok <==> UseStep(old(docs.Value()), c, uri, dir, "").Some?
    ensures ok ==> docs.Indexes() && UseStep(old(docs.Value()), c, uri, dir, "") == Some(Progress(docs.Value(), pays))
  {
    var r := docs.SetUsed(c, uri, c.length, dir, "", "", false);
    if !r.Pays? { return false, map[]; }
    return true, r.pays;
  }

  method UseUnits(docs: Documents, c: Chain, uris: seq<Uri>, dir: Direction)
    returns (ok: bool, sponsored: Amount, applied: map<Hash, Amount>)
    requires docs.Indexes() && AllUsable(docs.Value(), c, uris, dir) && SortOf(docs, dir)
    modifies docs`units, docs`expiring
    ensures ok <==> UseAll(old(docs.Value()), c, uris, dir).Some?
    ensures ok ==> var r := UseAll(old(docs.Value()), c, uris, dir).value;
                   docs.Indexes() && docs.Value() == r.docs && applied == Amounts(r.pays) && sponsored == Total(Amounts(r.pays))
  {
    ghost var v := docs.Value();
    sponsored, applied := 0, map[];
    EmptyAmounts();
    ghost var r := Progress(v, map[]);
    for n := 0 to |uris|
      invariant docs.Indexes() && UseAll(v, c, uris[..n], dir) == Some(r)
      invariant docs.Value() == r.docs && applied == Amounts(r.pays) && sponsored == Total(Amounts(r.pays))
    {
      assert UsableAt(v, c, uris, dir, n);
      UseOneMore(v, c, uris, n, dir);
      var pays;
      ok, pays := UseOne(docs, c, uris[n], dir);
      if !ok { PrefixOfUses(v, c, uris, n + 1, dir); return; }
      ok, sponsored, applied := NotePayments(sponsored, applied, pays);
      if !ok { PrefixOfUses(v, c, uris, n + 1, dir); return; }
      PaymentsJoin(r.pays, pays);
      r := Progress(docs.Value(), r.pays + pays);
    }
    assert uris[..|uris|] == uris;
    ok := true;
  }

  // ----- Expiring sponsorships -----

  method NoteReturn(back: map<Address, Amount>, p: Payment, ghost first: map<Address, Amount>, ghost noted: map<Hash, Payment>, ghost hash: Hash)
    returns (back': map<Address, Amount>)
    requires back == AddPayments(first, noted) && hash !in noted
    ensures back' == AddPayments(first, noted[hash := p])
  {
    AddPayment(first, noted, hash, p);
    back' := back[p.sponsor := Lookup(back, p.sponsor) + p.amount];
  }

  // Adds the payments to what goes back to the sponsors; false where a payment is empty.
  method NoteReturns(back: map<Address, Amount>, pays: map<Hash, Payment>, ghost first: map<Address, Amount>, ghost noted: map<Hash, Payment>)
    returns (ok: bool, back': map<Address, Amount>)
    requires back == AddPayments(first, noted) && noted.Keys !! pays.Keys
    ensures ok <==> forall h <- pays :: pays[h].amount > 0
    ensures ok ==> back' == AddPayments(first, noted + pays)
  {
    back' := back;
    ghost var done, all := noted, noted + pays;
    var rest := pays;
    while rest != map[]
      invariant done.Keys !! rest.Keys && all == done + rest
      invariant forall h <- rest :: h in pays && rest[h] == pays[h]
      invariant forall h <- pays :: h in rest || pays[h].amount > 0
      invariant back' == AddPayments(first, done)
      decreases rest.Keys
    {
      var hash :| hash in rest;
      var p := rest[hash];
      if p.amount == 0 { return false, back'; }
      back' := NoteReturn(back', p, first, done, hash);
      MoveOne(all, done, rest, hash);
      done, rest := done[hash := p], rest - {hash};
    }
    assert all == done;
    ok := true;
  }

  lemma {:induction false} PrefixOfExpiries(v: Docs, c: Chain, due: seq<(Uri, Hash)>, n: nat, dir: Direction)
    requires n <= |due| && ExpireAll(v, c, due[..n], dir).None?
    ensures ExpireAll(v, c, due, dir).None?
    decreases |due| - n
  {
    if n < |due| {
      assert due[..n + 1][..n] == due[..n];
      PrefixOfExpiries(v, c, due, n + 1, dir);
    } else {
      assert due[..n] == due;
    }
  }

  // A single expiration, and what it pays: nothing, or one positive amount of its own hash.
  method ExpireOne(docs: Documents, c: Chain, uri: Uri, hash: Hash, dir: Direction) returns (ok: bool, pays: map<Hash, Payment>)
    requires docs.Indexes() && hash != "" && SortOf(docs, dir)
    modifies docs`units, docs`expiring
    ensures ok <==> UseStep(old(docs.Value()), c, uri, dir, hash).Some?
    ensures ok ==> docs.Indexes() && UseStep(old(docs.Value()), c, uri, dir, hash) == Some(Progress(docs.Value(), pays))
    ensures ok ==> pays.Keys <= {hash} && forall h <- pays :: pays[h].amount > 0
  {
    ghost var v := docs.Value();
    if uri in docs.units {
      StepOnBook(v, c, uri, dir, hash);
      CancelPaysOne(v.books[uri], c.Now(), hash);
    }
    var r := docs.SetUsed(c, uri, c.length, dir, hash, "", false);
    if !r.Pays? { return false, map[]; }
    return true, r.pays;
  }

  ghost predicate OtherHashes(due: seq<(Uri, Hash)>) {
    Nameable(due) && forall i, j :: 0 <= i < j < |due| ==> due[i].1 != due[j].1
  }

  // Only sponsorships listed before were given back so far.
  ghost predicate AmongFirst(due: seq<(Uri, Hash)>, n: nat, pays: map<Hash, Payment>)
    requires n <= |due|
  {
    forall h <- pays :: exists i :: 0 <= i < n && due[i].1 == h
  }

  lemma AmongMore(due: seq<(Uri, Hash)>, n: nat, before: map<Hash, Payment>, pays: map<Hash, Payment>)
    requires OtherHashes(due) && n < |due| && AmongFirst(due, n, before) && pays.Keys <= {due[n].1}
    ensures before.Keys !! pays.Keys && AmongFirst(due, n + 1, before + pays)
  {
    forall h | h in before + pays ensures exists i :: 0 <= i < n + 1 && due[i].1 == h {
      if h in pays { assert due[n].1 == h; }
    }
  }

  // Where the loop over the list stands.
  ghost predicate ExpiredUpTo(v: Docs, c: Chain, due: seq<(Uri, Hash)>, n: nat, dir: Direction, r: Progress)
    requires n <= |due|
  {
    ExpireAll(v, c, due[..n], dir) == Some(r) && AmongFirst(due, n, r.pays)
  }

  lemma ExpireOneMore(v: Docs, c: Chain, due: seq<(Uri, Hash)>, n: nat, dir: Direction, r: Progress)
    requires n < |due| && ExpiredUpTo(v, c, due, n, dir, r)
    ensures var step := UseStep(r.docs, c, due[n].0, dir, due[n].1);
            && (step.None? ==> ExpireAll(v, c, due, dir).None?)
            && (step.Some? ==> ExpireAll(v, c, due[..n + 1], dir) == Some(Progress(step.value.docs, r.pays + step.value.pays)))
  {
    assert due[..n + 1][..n] == due[..n];
    if UseStep(r.docs, c, due[n].0, dir, due[n].1).None? { PrefixOfExpiries(v, c, due, n + 1, dir); }
  }

  // The next sponsorship of the list.
  method ExpireNext(docs: Documents, c: Chain, due: seq<(Uri, Hash)>, n: nat, dir: Direction, back: map<Address, Amount>,
                    ghost v: Docs, ghost first: map<Address, Amount>, ghost r: Progress)
    returns (ok: bool, back': map<Address, Amount>, ghost r': Progress)
    requires docs.Indexes() && OtherHashes(due) && n < |due| && SortOf(docs, dir)
    requires docs.Value() == r.docs && back == AddPayments(first, r.pays) && ExpiredUpTo(v, c, due, n, dir, r)
    modifies docs`units, docs`expiring
    ensures !ok ==> ExpireAll(v, c, due, dir).None?
    ensures ok ==> docs.Indexes() && docs.Value() == r'.docs && back' == AddPayments(first, r'.pays) && ExpiredUpTo(v, c, due, n + 1, dir, r')
  {
    assert due[n] in due;
    back', r' := back, r;
    ExpireOneMore(v, c, due, n, dir, r);
    var pays;
    ok, pays := ExpireOne(docs, c, due[n].0, due[n].1, dir);
    if !ok { return; }
    AmongMore(due, n, r.pays, pays);
    ok, back' := NoteReturns(back, pays, first, r.pays);
    r' := Progress(docs.Value(), r.pays + pays);
  }

  method ExpireUnits(docs: Documents, c: Chain, due: seq<(Uri, Hash)>, dir: Direction, back: map<Address, Amount>)
    returns (ok: bool, back': map<Address, Amount>)
    requires docs.Indexes() && OtherHashes(due) && SortOf(docs, dir)
    modifies docs`units, docs`expiring
    ensures ok <==> ExpireAll(old(docs.Value()), c, due, dir).Some?
    ensures ok ==> var r := ExpireAll(old(docs.Value()), c, due, dir).value;
                   docs.Indexes() && docs.Value() == r.docs && back' == AddPayments(back, r.pays)
  {
    ghost var v := docs.Value();
    back' := back;
    NoPayments(back);
    ghost var r := Progress(v, map[]);
    for n := 0 to |due|
      invariant docs.Indexes() && docs.Value() == r.docs && back' == AddPayments(back, r.pays) && ExpiredUpTo(v, c, due, n, dir, r)
    {
      ok, back', r := ExpireNext(docs, c, due, n, dir, back', v, back, r);
      if !ok { return; }
    }
    assert due[..|due|] == due;
    ok := true;
  }

  // What the block has to expire, without the units viewed in it.
  method DueUnits(docs: Documents, block: nat, viewed: seq<Uri>) returns (due: seq<(Uri, Hash)>)
    ensures DueList(docs.Value(), block, viewed, due)
    ensures forall i, j :: 0 <= i < j < |due| ==> due[i].1 != due[j].1
  {
    var all := docs.ContentUnitUriSponsorExpiring(block);
    due := [];
    for n := 0 to |all|
      invariant forall p :: p in due <==> p in all[..n] && p.0 !in viewed
      invariant forall i, j :: 0 <= i < j < |due| ==> due[i].1 != due[j].1
      invariant forall i :: 0 <= i < |due| ==> exists k :: 0 <= k < n && all[k] == due[i]
    {
      assert all[..n + 1] == all[..n] + [all[n]];
      if all[n].0 !in viewed { due := due + [all[n]]; }
    }
    assert all[..|all|] == all;
    forall uri, hash ensures (uri, hash) in due <==> Due(docs.Value(), block, uri, hash) && uri !in viewed {
      assert (uri, hash) in all <==> Due(docs.Value(), block, uri, hash);
    }
  }

  // ----- All grants of a block -----

  // To authors, channels and storages, in this order; `left` falls back to the miner.
  method MakeGroupRewards(stats: Stats, parts: Parts) returns (rewards: seq<Reward>, left: Amount)
    requires OkStats(stats)
    ensures (rewards, left) == GroupRewards(stats, parts)
    ensures SumRewards(rewards) + left == parts.author + parts.channel + parts.storage
  {
    GroupRewardsConserve(stats, parts);
    var ok, left1, left2, left3;
    ok, rewards, left1 := DistributeRewards([], stats.authors, parts.author, RewardType.Author);
    ok, rewards, left2 := DistributeRewards(rewards, stats.channels, parts.channel, RewardType.Channel);
    ok, rewards, left3 := DistributeRewards(rewards, stats.storages, parts.storage, RewardType.Storage);
    left := left1 + left2 + left3;
  }

  method AddOthers(granted: seq<Reward>, left: Amount, back: map<Address, Amount>, miner: Address, amount: Amount)
    returns (rewards: seq<Reward>)
    ensures rewards == Listed((granted, left), back, miner, amount)
  {
    var returned := ListRewards(back, SponsoredReturn);
    rewards := granted + returned;
    if amount + left != 0 { rewards := rewards + [Reward(miner, amount + left, RewardType.Miner)]; }
  }

  method ListParts(stats: Stats, parts: Parts, back: map<Address, Amount>, miner: Address) returns (rewards: seq<Reward>)
    requires OkStats(stats)
    ensures rewards == ListFor(stats, parts, back, miner)
  {
    var granted, left := MakeGroupRewards(stats, parts);
    rewards := AddOthers(granted, left, back, miner, parts.miner);
  }

  method MakeRewards(stats: Stats, emission: Amount, sponsored: Amount, back: map<Address, Amount>, miner: Address)
    returns (rewards: seq<Reward>)
    requires OkStats(stats)
    ensures rewards == RewardList(stats, emission, sponsored, back, miner)
    ensures SumRewards(rewards) == emission + sponsored + Total(back)
    ensures stats.viewed != [] ==> PaidInParts(rewards, emission, sponsored, back)
    ensures stats.viewed != [] ==> SharedFairly(rewards, stats, back) && OnlyEntitled(rewards, stats, back, miner)
  {
    RewardListConserves(stats, emission, sponsored, back, miner);
    if stats.viewed != [] { RewardsInParts(stats, emission, sponsored, back, miner); }
    rewards := ListParts(stats, PartsOf(emission, sponsored), back, miner);
  }

  lemma {:induction false} UsesKeepTable(d: Docs, c: Chain, uris: seq<Uri>, dir: Direction)
    requires UseAll(d, c, uris, dir).Some?
    ensures var d' := UseAll(d, c, uris, dir).value.docs;
            d'.expiring == d.expiring && d'.blockOf == d.blockOf && d'.books.Keys == d.books.Keys
  {
    if uris == [] {
    } else {
      UsesKeepTable(d, c, uris[..|uris| - 1], dir);
    }
  }

  lemma SameDue(d: Docs, d': Docs, block: nat, viewed: seq<Uri>, due: seq<(Uri, Hash)>)
    requires d.expiring == d'.expiring && DueList(d', block, viewed, due)
    ensures DueList(d, block, viewed, due)
  {
    forall uri, hash ensures (uri, hash) in due <==> Due(d, block, uri, hash) && uri !in viewed {
      assert (uri, hash) in due <==> Due(d', block, uri, hash) && uri !in viewed;
    }
  }

  // The units are used, then the sponsorships due are given back.
  method GrantUnits(docs: Documents, c: Chain, viewed: seq<Uri>, dir: Direction, back: map<Address, Amount>)
    returns (ok: bool, sponsored: Amount, back': map<Address, Amount>, ghost due: seq<(Uri, Hash)>)
    requires docs.Indexes() && OkTable(docs.Value()) && AllUsable(docs.Value(), c, viewed, dir) && SortOf(docs, dir)
    modifies docs`units, docs`expiring
    ensures DueList(old(docs.Value()), c.length, viewed, due)
    ensures ok <==> GrantDocs(old(docs.Value()), c, viewed, due, dir).Some?
    ensures ok ==> var (uses, expiries) := GrantDocs(old(docs.Value()), c, viewed, due, dir).value;
                   && docs.Indexes() && docs.Value() == expiries.docs
                   && sponsored == Total(Amounts(uses.pays)) && back' == AddPayments(back, expiries.pays)
  {
    ghost var v := docs.Value();
    due := Listing(v, c.length, viewed);
    back' := back;
    var applied;
    ok, sponsored, applied := UseUnits(docs, c, viewed, dir);
    if !ok { return; }
    UsesKeepTable(v, c, viewed, dir);
    TableFrame(v, docs.Value());
    var list := DueUnits(docs, c.length, viewed);
    DueFacts(docs.Value(), c.length, viewed, list);
    SameDue(v, docs.Value(), c.length, viewed, list);
    due := list;
    ok, back' := ExpireUnits(docs, c, list, dir, back);
  }

  method ListGrants(stats: Stats, sponsored: Amount, back': map<Address, Amount>, table: seq<Amount>, block: nat, miner: Address,
                    ghost back: map<Address, Amount>, ghost slices: map<Hash, Payment>, ghost rests: map<Hash, Payment>)
    returns (ok: bool, rewards: seq<Reward>)
    requires OkStats(stats) && sponsored == Total(Amounts(slices)) && back' == AddPayments(back, rests)
    ensures ListOf(stats, back, table, block, miner, slices, rests) == if ok then Some(rewards) else None
  {
    var emission := Emission(table, block);
    if emission.None? { return false, []; }
    rewards := MakeRewards(stats, emission.value, sponsored, back', miner);
    ok := true;
  }

  // Uses, expirations and the reward list, for given shares and returns.
  method GrantShares(docs: Documents, c: Chain, stats: Stats, back: map<Address, Amount>, table: seq<Amount>, miner: Address, dir: Direction)
    returns (ok: bool, rewards: seq<Reward>, ghost due: seq<(Uri, Hash)>)
    requires OkStats(stats) && docs.Indexes() && OkTable(docs.Value()) && AllUsable(docs.Value(), c, stats.viewed, dir) && SortOf(docs, dir)
    modifies docs`units, docs`expiring
    ensures DueList(old(docs.Value()), c.length, stats.viewed, due)
    ensures ok ==> docs.Indexes()
    ensures GrantFor(stats, back, table, old(docs.Value()), c, miner, due, dir) == if ok then Some((docs.Value(), rewards)) else None
  {
    rewards := [];
    ghost var d := docs.Value();
    var back', sponsored;
    ok, sponsored, back', due := GrantUnits(docs, c, stats.viewed, dir, back);
    if ok {
      ghost var grants := GrantDocs(d, c, stats.viewed, due, dir).value;
      ok, rewards := ListGrants(stats, sponsored, back', table, c.length, miner, back, grants.0.pays, grants.1.pays);
    }
  }

  // The shares that the reports in a block give.
  method ComputeShares(registry: Registry, roles: Roles, blk: Block, ghost w: World) returns (stats: Option<Stats>)
    requires registry == w.registry && roles == w.roles
    ensures stats == Shares(w, blk) && (stats.Some? ==> OkStats(stats.value) && stats.value.viewed == Viewed(w, blk))
  {
    var ok, channels, storages := CollectServices(roles, blk.services);
    if !ok { return None; }
    var reports := ListReports(channels);
    var deliveries := ListReports(storages);
    stats := ValidateStatistics(registry, reports, deliveries);
  }

  // The rewards the code grants for a block; false where it throws.
  method GrantRewards(docs: Documents, c: Chain, registry: Registry, roles: Roles, table: seq<Amount>, blk: Block, dir: Direction, ghost w: World)
    returns (ok: bool, rewards: seq<Reward>, ghost due: seq<(Uri, Hash)>)
    requires docs.Indexes() && OkTable(docs.Value()) && c == w.chain && registry == w.registry && roles == w.roles
    requires AllUsable(docs.Value(), c, Viewed(w, blk), dir) && SortOf(docs, dir)
    modifies docs`units, docs`expiring
    ensures DueList(old(docs.Value()), c.length, Viewed(w, blk), due)
    ensures ok ==> docs.Indexes()
    ensures Grant(w, table, old(docs.Value()), blk, due, dir) == if ok then Some((docs.Value(), rewards)) else None
  {
    rewards := [];
    due := DueIn(w, docs.Value(), blk);
    var back;
    ok, back := CollectReturns(docs, blk.txs);
    if !ok { return; }
    var stats := ComputeShares(registry, roles, blk, w);
    if stats.None? { return false, rewards, due; }
    ok, rewards, due := GrantShares(docs, c, stats.value, back, table, blk.miner, dir);
  }

  // ----- Whole blocks -----

  method IncreaseBalances(state: StateStore, rewards: seq<Reward>)
    modifies state
    ensures state.Value() == IncreaseAll(old(state.Value()), state.node, rewards)
  {
    for n := 0 to |rewards|
      invariant state.Value() == IncreaseAll(old(state.Value()), state.node, rewards[..n])
    {
      assert rewards[..n + 1][..n] == rewards[..n];
      state.IncreaseBalance(rewards[n].to, rewards[n].amount, true);
    }
    assert rewards[..|rewards|] == rewards;
  }

  method DecreaseBalances(state: StateStore, rewards: seq<Reward>) returns (ok: bool)
    modifies state
    ensures ok <==> DecreaseAll(old(state.Value()), state.node, rewards).Some?
    ensures ok ==> DecreaseAll(old(state.Value()), state.node, rewards) == Some(state.Value())
  {
    var n := |rewards|;
    assert rewards[..n] == rewards;
    while n > 0
      invariant n <= |rewards|
      invariant DecreaseAll(old(state.Value()), state.node, rewards) == DecreaseAll(state.Value(), state.node, rewards[..n])
    {
      assert rewards[..n][..n - 1] == rewards[..n - 1];
      n := n - 1;
      ok := state.DecreaseBalance(rewards[n].to, rewards[n].amount, true);
      if !ok { return; }
    }
    ok := true;
  }

  lemma GrantsUsable(w: World, l: Ledger, blk: Block)
    requires Inv(w, l)
    ensures OkTable(l.docs) && AllOk(l.docs, w.chain.Now()) && AllUsable(l.docs, w.chain, Viewed(w, blk), Forward)
  {
    InvIsAllOk(w, l);
    AllForwardUsable(l.docs, w.chain, Viewed(w, blk));
  }

  lemma RewardedBy(w: World, table: seq<Amount>, l: Ledger, blk: Block, due: seq<(Uri, Hash)>)
    requires OkTable(l.docs) && AllOk(l.docs, w.chain.Now()) && DueList(l.docs, w.chain.length, Viewed(w, blk), due)
    ensures var granted := Grant(w, table, l.docs, blk, due, Forward);
            Rewarded(w, table, l, blk) ==
            if granted.Some? && granted.value.1 == blk.rewards
            then Some(l.(docs := granted.value.0, state := IncreaseAll(l.state, w.node, blk.rewards)))
            else None
  {
    GrantListing(w, table, l.docs, blk, due, DueIn(w, l.docs, blk));
  }

  method PayRewards(node: Node, rewards: seq<Reward>)
    requires node.docs.Indexes()
    modifies node.state
    ensures node.docs.Indexes()
    ensures var l := old(node.Value()); node.Value() == l.(state := IncreaseAll(l.state, node.state.node, rewards))
  {
    IncreaseBalances(node.state, rewards);
  }

  // The rewards of a block whose transactions are applied: recomputed, compared, paid.
  method AcceptRewards(node: Node, table: seq<Amount>, blk: Block, ghost w: World) returns (ok: bool)
    requires node.docs.Indexes() && node.World() == w
    requires OkTable(node.docs.Value()) && AllOk(node.docs.Value(), w.chain.Now())
    requires AllUsable(node.docs.Value(), w.chain, Viewed(w, blk), Forward)
    modifies node.state, node.docs`units, node.docs`expiring
    ensures ok <==> Rewarded(w, table, old(node.Value()), blk).Some?
    ensures ok ==> node.docs.Indexes() && Rewarded(w, table, old(node.Value()), blk) == Some(node.Value())
  {
    ghost var l := node.Value();
    var rewards;
    ghost var due;
    ok, rewards, due := GrantRewards(node.docs, node.Height(), node.registry, node.roles, table, blk, Forward, w);
    RewardedBy(w, table, l, blk, due);
    if !ok { return; }
    assert node.Value() == l.(docs := node.docs.Value());
    if rewards != blk.rewards { return false; }
    PayRewards(node, rewards);
  }

  // The block is inserted into the chain.
  method Advance(node: Node, ghost w: World, ghost l: Ledger)
    requires node.World() == w && node.docs.Indexes() && node.Value() == l && Inv(Next(w), l)
    modifies node`length
    ensures node.World() == Next(w) && node.Valid() && node.Value() == l
  {
    node.length := node.length + 1;
  }

  // A new block: its transactions, the check of its rewards, the rewards on the balances.
  // An accepted block leaves the node ready for the next one.
  method AcceptBlock(node: Node, table: seq<Amount>, blk: Block) returns (ok: bool)
    requires node.Valid() && Ready(node.World(), node.Value(), true) && AllNew(node.Value(), blk.txs) && blk.miner != ""
    modifies node`length, node.state, node.docs, node.rights
    ensures ok <==> Takes(old(node.World()), old(node.Value()), blk) && ApplyBlock(old(node.World()), table, old(node.Value()), blk).Some?
    ensures ok ==>
      && ApplyBlock(old(node.World()), table, old(node.Value()), blk) == Some(node.Value())
      && node.World() == Next(old(node.World())) && node.Valid() && Ready(node.World(), node.Value(), true)
  {
    ghost var w, l := node.World(), node.Value();
    ok := node.ApplyTxs(blk.txs, blk.miner);
    if !ok { return; }
    GrantsUsable(w, node.Value(), blk);
    ok := AcceptRewards(node, table, blk, w);
    if !ok { return; }
    ApplyBlockKeepsInv(w, table, l, blk);
    Advance(node, w, node.Value());
  }

  // The last block is removed from the chain.
  method StepBack(node: Node, ghost w: World)
    requires node.World() == Next(w)
    modifies node`length
    ensures node.World() == w
  {
    node.length := node.length - 1;
  }

  // The rewards of an accepted block are recomputed in the other direction; they are equal,
  // and the documents those before the grants, exactly if the block was orderly.
  method RevertRewards(node: Node, table: seq<Amount>, blk: Block, ghost w: World, ghost l1: Ledger) returns (ok: bool)
    requires Inv(w, l1) && Ready(w, l1, true) && AllOk(l1.docs, w.chain.Now())
    requires Rewarded(w, table, l1, blk) == Some(node.Value()) && node.World() == w && node.docs.Indexes() && OkTable(node.docs.Value())
    modifies node.state, node.docs`units, node.docs`expiring
    ensures ok <==> AllOrderly(l1.docs, w.chain.Now(), Viewed(w, blk), w.sort)
    ensures ok ==> node.docs.Indexes() && node.Value() == l1
  {
    ghost var due := DueIn(w, l1.docs, blk);
    var rewards;
    ghost var due';
    ok, rewards, due' := GrantRewards(node.docs, node.Height(), node.registry, node.roles, table, blk, Backward(node.docs.sort), w);
    GrantBackExactly(w, table, l1.docs, blk, due, due');
    if !ok || rewards != blk.rewards { return false; }
    IncreaseAllKeeps(l1.state, w.node, blk.rewards);
    ok := DecreaseBalances(node.state, blk.rewards);
  }

  // Taking the last block off the chain and undoing it.  It succeeds exactly if the block was
  // orderly, and then the node is what it was before the block.
  method RevertLastBlock(node: Node, table: seq<Amount>, blk: Block, ghost w: World, ghost l: Ledger) returns (ok: bool)
    requires Takes(w, l, blk) && ApplyBlock(w, table, l, blk) == Some(node.Value())
    requires node.World() == Next(w) && node.docs.Indexes()
    modifies node`length, node.state, node.docs, node.rights
    ensures ok <==> OrderlyBlock(w, l, blk)
    ensures ok ==> node.World() == w && node.Valid() && node.Value() == l
  {
    ghost var l1 := ApplyAll(w, l, blk.txs, blk.miner);
    RevertAllUndoes(w, l, blk.txs, blk.miner);
    InvIsAllOk(w, l1);
    ApplyBlockKeepsInv(w, table, l, blk);
    StepBack(node, w);
    ok := RevertRewards(node, table, blk, w, l1);
    if ok { ok := node.RevertTxs(l, blk.txs, blk.miner); }
  }
}
