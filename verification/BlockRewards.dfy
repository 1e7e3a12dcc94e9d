/** The reward list of a block, and what the sponsorships still owe. */
module BlockRewards {
  import opened Basics
  import opened Ordering
  import opened Totals
  import opened Rewards
  import opened Statistics
  import opened Collecting
  import opened Sponsorship
  import opened Books
  import opened DocumentValues
  import opened BlockDocs

  // ----- Payments as tables of amounts -----

  function Amounts(m: map<Hash, Payment>): map<Hash, Amount> {
    map h | h in m :: m[h].amount
  }

  function AmountsTo(m: map<Hash, Payment>, to: Address): map<Hash, Amount> {
    map h | h in m && m[h].sponsor == to :: m[h].amount
  }

  function Sponsors(m: map<Hash, Payment>): set<Address> {
    set h | h in m :: m[h].sponsor
  }

  // The back with the payments added to their sponsors.
  ghost function AddPayments(back: map<Address, Amount>, m: map<Hash, Payment>): map<Address, Amount> {
    map a | a in back.Keys + Sponsors(m) :: Lookup(back, a) + Total(AmountsTo(m, a))
  }

  lemma NoPayments(back: map<Address, Amount>)
    ensures AddPayments(back, map[]) == back
  {
    assert Sponsors(map[]) == {};
    forall a ensures AmountsTo(map[], a) == map[] {}
  }

  lemma SponsorsGrow(m: map<Hash, Payment>, h: Hash, p: Payment)
    requires h !in m
    ensures Sponsors(m[h := p]) == Sponsors(m) + {p.sponsor}
  {
    var m' := m[h := p];
    assert h in m';
    forall a | a in Sponsors(m) ensures a in Sponsors(m') {
      var k :| k in m && m[k].sponsor == a;
      assert k in m' && m'[k].sponsor == a;
    }
  }

  lemma AmountsToGrow(m: map<Hash, Payment>, h: Hash, p: Payment, a: Address)
    requires h !in m
    ensures Total(AmountsTo(m[h := p], a)) == Total(AmountsTo(m, a)) + if a == p.sponsor then p.amount else 0
  {
    if a == p.sponsor {
      assert AmountsTo(m[h := p], a) == AmountsTo(m, a)[h := p.amount];
      TotalSet(AmountsTo(m, a), h, p.amount);
    } else {
      assert AmountsTo(m[h := p], a) == AmountsTo(m, a);
    }
  }

  lemma NoSponsor(m: map<Hash, Payment>, a: Address)
    requires a !in Sponsors(m)
    ensures AmountsTo(m, a) == map[]
  {}

  lemma SameTable(m: map<Address, Amount>, m': map<Address, Amount>)
    requires forall a :: (a in m <==> a in m') && Lookup(m, a) == Lookup(m', a)
    ensures m == m'
  {
    forall a | a in m ensures m[a] == m'[a] { assert Lookup(m, a) == Lookup(m', a); }
  }

  lemma AddedAt(back: map<Address, Amount>, m: map<Hash, Payment>, h: Hash, p: Payment, a: Address)
    requires h !in m
    ensures a in AddPayments(back, m[h := p]) <==> a in AddPayments(back, m) || a == p.sponsor
    ensures Lookup(AddPayments(back, m[h := p]), a) == Lookup(AddPayments(back, m), a) + if a == p.sponsor then p.amount else 0
  {
    SponsorsGrow(m, h, p);
    AmountsToGrow(m, h, p, a);
    if a !in AddPayments(back, m) { NoSponsor(m, a); }
  }

  lemma AddPayment(back: map<Address, Amount>, m: map<Hash, Payment>, h: Hash, p: Payment)
    requires h !in m
    ensures AddPayments(back, m[h := p]) == AddTo(AddPayments(back, m), p.sponsor, p.amount)
  {
    var left, right := AddPayments(back, m[h := p]), AddTo(AddPayments(back, m), p.sponsor, p.amount);
    forall a ensures (a in left <==> a in right) && Lookup(left, a) == Lookup(right, a) { AddedAt(back, m, h, p, a); }
    SameTable(left, right);
  }

  lemma AmountsGrow(m: map<Hash, Payment>, h: Hash, p: Payment)
    requires h !in m
    ensures Total(Amounts(m[h := p])) == Total(Amounts(m)) + p.amount
  {
    assert Amounts(m[h := p]) == Amounts(m)[h := p.amount];
    TotalSet(Amounts(m), h, p.amount);
  }

  lemma EmptyAmounts()
    ensures Total(Amounts(map[])) == 0
  {
    assert Amounts(map[]) == map[];
  }

  lemma {:induction false} AddPaymentsTotal(back: map<Address, Amount>, m: map<Hash, Payment>)
    ensures Total(AddPayments(back, m)) == Total(back) + Total(Amounts(m))
    decreases |m|
  {
    if m == map[] {
      NoPayments(back);
      EmptyAmounts();
    } else {
      var h :| h in m;
      PutBack(m, h);
      var rest, p := m - {h}, m[h];
      AddPaymentsTotal(back, rest);
      OneMorePayment(back, rest, h, p);
    }
  }

  lemma OneMorePayment(back: map<Address, Amount>, m: map<Hash, Payment>, h: Hash, p: Payment)
    requires h !in m
    ensures Total(AddPayments(back, m[h := p])) == Total(AddPayments(back, m)) + p.amount
    ensures Total(Amounts(m[h := p])) == Total(Amounts(m)) + p.amount
  {
    AddPayment(back, m, h, p);
    AmountsGrow(m, h, p);
    AddToTotal(AddPayments(back, m), p.sponsor, p.amount);
  }

  lemma AddToTotal(m: map<Address, Amount>, k: Address, n: Amount)
    ensures Total(AddTo(m, k, n)) == Total(m) + n
  {
    TotalSet(m, k, Lookup(m, k) + n);
  }

  lemma UnionStep(m: map<Hash, Payment>, m': map<Hash, Payment>, h: Hash, p: Payment)
    requires h !in m && h !in m'
    ensures Total(Amounts(m + m'[h := p])) == Total(Amounts(m + m')) + p.amount
    ensures Total(Amounts(m'[h := p])) == Total(Amounts(m')) + p.amount
  {
    UnionPut(m, m', h, p);
    AmountsGrow(m + m', h, p);
    AmountsGrow(m', h, p);
  }

  lemma {:induction false} TotalUnion(m: map<Hash, Payment>, m': map<Hash, Payment>)
    requires m.Keys !! m'.Keys
    ensures Total(Amounts(m + m')) == Total(Amounts(m)) + Total(Amounts(m'))
    decreases |m'|
  {
    if m' == map[] {
      assert m + m' == m;
      EmptyAmounts();
    } else {
      var h :| h in m';
      PutBack(m', h);
      var rest, p := m' - {h}, m'[h];
      TotalUnion(m, rest);
      UnionStep(m, rest, h, p);
    }
  }

  // ----- The reward list -----

  function Distribute(rewards: seq<Reward>, shares: seq<Share>, total: Amount, kind: RewardType): (seq<Reward>, Amount)
    requires shares == [] || (Proper(shares) && SumShares(shares) == 1.0)
  {
    if shares == [] || total == 0 then (rewards, total) else (rewards + Split(shares, total, kind), 0)
  }

  lemma DistributeConserves(rewards: seq<Reward>, shares: seq<Share>, total: Amount, kind: RewardType)
    requires shares == [] || (Proper(shares) && SumShares(shares) == 1.0)
    ensures var (r, rest) := Distribute(rewards, shares, total, kind);
            SumRewards(r) + rest == SumRewards(rewards) + total
  {
    if shares != [] && total != 0 {
      SplitConserves(shares, total, kind);
      SumRewardsConcat(rewards, Split(shares, total, kind));
    }
  }

  datatype Parts = Parts(miner: Amount, author: Amount, channel: Amount, storage: Amount)

  // What the emission and the sponsored coins give to each group.
  function PartsOf(emission: Amount, sponsored: Amount): Parts {
    var miner := emission * 10 / 100;
    var author := emission * 40 / 100;
    var channel := emission * 30 / 100;
    var authorS := sponsored * 50 / 100;
    var channelS := sponsored * 30 / 100;
    Parts(miner, author + authorS, channel + channelS, (emission - miner - author - channel) + (sponsored - authorS - channelS))
  }

  // Years of 50000 blocks; None where the table is read past its end.
  function Emission(table: seq<Amount>, block: nat): Option<Amount> {
    if block / 50000 < |table| then Some(table[block / 50000]) else None
  }

  // The rewards of the three groups, and what falls back to the miner.
  function GroupRewards(stats: Stats, parts: Parts): (seq<Reward>, Amount)
    requires OkStats(stats)
  {
    var (r1, left1) := Distribute([], stats.authors, parts.author, RewardType.Author);
    var (r2, left2) := Distribute(r1, stats.channels, parts.channel, RewardType.Channel);
    var (r3, left3) := Distribute(r2, stats.storages, parts.storage, RewardType.Storage);
    (r3, left1 + left2 + left3)
  }

  lemma GroupRewardsConserve(stats: Stats, parts: Parts)
    requires OkStats(stats)
    ensures SumRewards(GroupRewards(stats, parts).0) + GroupRewards(stats, parts).1 == parts.author + parts.channel + parts.storage
  {
    DistributeConserves([], stats.authors, parts.author, RewardType.Author);
    var (r1, left1) := Distribute([], stats.authors, parts.author, RewardType.Author);
    DistributeConserves(r1, stats.channels, parts.channel, RewardType.Channel);
    var (r2, left2) := Distribute(r1, stats.channels, parts.channel, RewardType.Channel);
    DistributeConserves(r2, stats.storages, parts.storage, RewardType.Storage);
  }

  function ReturnRewards(back: map<Address, Amount>): seq<Reward> {
    ToRewards(back, Ascending(back.Keys), SponsoredReturn)
  }

  lemma ReturnRewardsSum(back: map<Address, Amount>)
    ensures SumRewards(ReturnRewards(back)) == Total(back)
  {
    ToRewardsSum(back, Ascending(back.Keys), SponsoredReturn);
    SumAtIsTotal(back, Ascending(back.Keys));
  }

  function WithMiner(rewards: seq<Reward>, miner: Address, amount: Amount): seq<Reward> {
    if amount == 0 then rewards else rewards + [Reward(miner, amount, RewardType.Miner)]
  }

  // The groups, the returns, and the miner with what fell back to him.
  function Listed(groups: (seq<Reward>, Amount), back: map<Address, Amount>, miner: Address, amount: Amount): seq<Reward> {
    WithMiner(groups.0 + ReturnRewards(back), miner, amount + groups.1)
  }

  function ListFor(stats: Stats, parts: Parts, back: map<Address, Amount>, miner: Address): seq<Reward>
    requires OkStats(stats)
  {
    Listed(GroupRewards(stats, parts), back, miner, parts.miner)
  }

  function RewardList(stats: Stats, emission: Amount, sponsored: Amount, back: map<Address, Amount>, miner: Address): seq<Reward>
    requires OkStats(stats)
  {
    ListFor(stats, PartsOf(emission, sponsored), back, miner)
  }

  // All rewards of a block add up to the emission, the slices paid by sponsorships and the
  // amounts given back to sponsors: nothing is lost to rounding.
  lemma RewardListConserves(stats: Stats, emission: Amount, sponsored: Amount, back: map<Address, Amount>, miner: Address)
    requires OkStats(stats)
    ensures SumRewards(RewardList(stats, emission, sponsored, back, miner)) == emission + sponsored + Total(back)
  {
    PartsAreAll(emission, sponsored);
    ListForSum(stats, PartsOf(emission, sponsored), back, miner);
  }

  lemma ListForSum(stats: Stats, parts: Parts, back: map<Address, Amount>, miner: Address)
    requires OkStats(stats)
    ensures SumRewards(ListFor(stats, parts, back, miner)) == parts.miner + parts.author + parts.channel + parts.storage + Total(back)
  {
    GroupRewardsConserve(stats, parts);
    var (granted, left) := GroupRewards(stats, parts);
    ListSum(granted, left, parts, back, miner);
  }

  lemma PartsAreAll(emission: Amount, sponsored: Amount)
    ensures var p := PartsOf(emission, sponsored); p.miner + p.author + p.channel + p.storage == emission + sponsored
  {}

  lemma ListSum(granted: seq<Reward>, left: Amount, parts: Parts, back: map<Address, Amount>, miner: Address)
    ensures SumRewards(WithMiner(granted + ReturnRewards(back), miner, parts.miner + left))
            == SumRewards(granted) + Total(back) + parts.miner + left
  {
    ReturnRewardsSum(back);
    SumRewardsConcat(granted, ReturnRewards(back));
    MinerSum(granted + ReturnRewards(back), miner, parts.miner + left);
  }

  lemma NoGroups(stats: Stats, parts: Parts)
    requires stats == Stats([], [], [], [])
    ensures GroupRewards(stats, parts) == ([], parts.author + parts.channel + parts.storage)
  {
    assert Distribute([], stats.authors, parts.author, RewardType.Author) == ([], parts.author);
    assert Distribute([], stats.channels, parts.channel, RewardType.Channel) == ([], parts.channel);
    assert Distribute([], stats.storages, parts.storage, RewardType.Storage) == ([], parts.storage);
  }

  // Without views everything but the returns falls to the miner.
  lemma NothingViewedRewards(stats: Stats, emission: Amount, sponsored: Amount, back: map<Address, Amount>, miner: Address)
    requires stats == Stats([], [], [], [])
    ensures RewardList(stats, emission, sponsored, back, miner) == WithMiner(ReturnRewards(back), miner, emission + sponsored)
  {
    PartsAreAll(emission, sponsored);
    NoGroupRewards(stats, PartsOf(emission, sponsored), emission + sponsored, back, miner);
  }

  lemma NoGroupRewards(stats: Stats, parts: Parts, total: Amount, back: map<Address, Amount>, miner: Address)
    requires stats == Stats([], [], [], []) && parts.miner + parts.author + parts.channel + parts.storage == total
    ensures ListFor(stats, parts, back, miner) == WithMiner(ReturnRewards(back), miner, total)
  {
    NoGroups(stats, parts);
    var none: seq<Reward> := [];
    assert none + ReturnRewards(back) == ReturnRewards(back);
  }

  lemma MinerSum(rewards: seq<Reward>, miner: Address, amount: Amount)
    ensures SumRewards(WithMiner(rewards, miner, amount)) == SumRewards(rewards) + amount
  {
    assert (rewards + [Reward(miner, amount, RewardType.Miner)])[..|rewards|] == rewards;
  }

  // ----- What is still owed -----

  function Owed(b: Book, n: nat): Amount
    requires Ok(b) && n <= |b.items|
  {
    if n == 0 then 0 else Owed(b, n - 1) + Remaining(b, n - 1)
  }

  function LostOf(b: Book, t: int, n: nat): Amount
    requires Ok(b) && n <= |b.items|
  {
    if n == 0 then 0 else LostOf(b, t, n - 1) + Lost(b, t, n - 1)
  }

  lemma {:induction false} PaidSum(b: Book, m: map<Hash, Payment>, n: nat)
    requires Ok(b) && n <= |b.items|
    ensures SumAt(Amounts(m), Hashes(b)[..n]) == if n == 0 then 0 else SumAt(Amounts(m), Hashes(b)[..n - 1]) + Paid(m, b.items[n - 1].hash)
  {
    if n == 0 {
    } else {
      assert Hashes(b)[..n][..n - 1] == Hashes(b)[..n - 1];
      assert Hashes(b)[..n][n - 1] == b.items[n - 1].hash;
    }
  }

  // The payments of a book's own items add up to their total.
  lemma PaidTotal(b: Book, m: map<Hash, Payment>)
    requires Ok(b) && forall h <- m :: h in Hashes(b)
    ensures SumAt(Amounts(m), Hashes(b)[..|b.items|]) == Total(Amounts(m))
  {
    assert Hashes(b)[..|b.items|] == Hashes(b);
    SumAtIsTotal(Amounts(m), Hashes(b));
  }

  lemma ScanHashes(b: Book, t: int, cancel: Hash)
    requires Ok(b) && ScanTime(b, t)
    ensures forall h <- Scan(b, t, cancel) :: h in Hashes(b)
  {
    CollectHas(Hashes(b), Lines(b, t, cancel), Identity(|b.items|));
  }

  lemma {:induction false} OwedAfterUse(b: Book, t: int, n: nat)
    requires Ok(b) && Fresh(b, t) && n <= |b.items|
    ensures Ok(Used(b, t))
    ensures Owed(b, n) == SumAt(Amounts(UsePays(b, t)), Hashes(b)[..n]) + LostOf(b, t, n) + Owed(Used(b, t), n)
  {
    UsedIsOk(b, t);
    PaidSum(b, UsePays(b, t), n);
    if n == 0 {
    } else {
      OwedAfterUse(b, t, n - 1);
      StepSettles(b, Use(t), n - 1);
    }
  }

  lemma UseOwes(b: Book, t: int)
    requires Ok(b) && Fresh(b, t)
    ensures Ok(Used(b, t))
    ensures Owed(b, |b.items|) ==
            Total(Amounts(UsePays(b, t))) + LostOf(b, t, |b.items|) + Owed(Used(b, t), |b.items|)
  {
    OwedAfterUse(b, t, |b.items|);
    if t > b.Last() { ScanHashes(b, t, ""); }
    PaidTotal(b, UsePays(b, t));
  }

  lemma {:induction false} OwedAfterCancel(b: Book, t: int, hash: Hash, n: nat)
    requires Ok(b) && hash != "" && n <= |b.items|
    requires forall i :: 0 <= i < |b.items| && b.items[i].hash == hash ==> !b.items[i].cancelled
    ensures Ok(Cancelled(b, t, hash, true)) && |Cancelled(b, t, hash, true).items| == |b.items|
    ensures Owed(b, n) == SumAt(Amounts(CancelPays(b, t, hash)), Hashes(b)[..n]) + Owed(Cancelled(b, t, hash, true), n)
  {
    if t > b.Last() { MarkedIsOk(b, t, hash, true); }
    PaidSum(b, CancelPays(b, t, hash), n);
    if n == 0 {
    } else {
      OwedAfterCancel(b, t, hash, n - 1);
      StepSettles(b, Cancel(t, hash), n - 1);
    }
  }

  lemma CancelOwes(b: Book, t: int, hash: Hash)
    requires Ok(b) && hash != ""
    requires forall i :: 0 <= i < |b.items| && b.items[i].hash == hash ==> !b.items[i].cancelled
    ensures Ok(Cancelled(b, t, hash, true)) && |Cancelled(b, t, hash, true).items| == |b.items|
    ensures Owed(b, |b.items|) ==
            Total(Amounts(CancelPays(b, t, hash))) + Owed(Cancelled(b, t, hash, true), |b.items|)
  {
    OwedAfterCancel(b, t, hash, |b.items|);
    if t > b.Last() { ScanHashes(b, t, hash); }
    PaidTotal(b, CancelPays(b, t, hash));
  }
}
