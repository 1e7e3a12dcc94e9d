/** Which part of a block's reward goes to whom. */
module RewardParts {
  import opened Basics
  import opened Ordering
  import opened Totals
  import opened Rewards
  import opened Statistics
  import opened BlockDocs
  import opened BlockRewards
  import opened DocumentValues
  import opened Transactions
  import opened Blocks

  // ----- Lists by kind and receiver -----

  function OfKind(rewards: seq<Reward>, kind: RewardType): Amount {
    if rewards == [] then 0
    else
      var last := rewards[|rewards| - 1];
      OfKind(rewards[..|rewards| - 1], kind) + if last.kind == kind then last.amount else 0
  }

  // What `a` gets of one kind.
  function OfKindTo(rewards: seq<Reward>, kind: RewardType, a: Address): Amount {
    if rewards == [] then 0
    else
      var last := rewards[|rewards| - 1];
      OfKindTo(rewards[..|rewards| - 1], kind, a) + if last.kind == kind && last.to == a then last.amount else 0
  }

  lemma {:induction false} OfKindConcat(r: seq<Reward>, r': seq<Reward>, kind: RewardType, a: Address)
    ensures OfKind(r + r', kind) == OfKind(r, kind) + OfKind(r', kind)
    ensures OfKindTo(r + r', kind, a) == OfKindTo(r, kind, a) + OfKindTo(r', kind, a)
  {
    if r' == [] {
      assert r + r' == r;
    } else {
      OfKindConcat(r, r'[..|r'| - 1], kind, a);
      assert (r + r')[..|r + r'| - 1] == r + r'[..|r'| - 1];
    }
  }

  lemma {:induction false} AllOfKind(r: seq<Reward>, kind: RewardType, other: RewardType, a: Address)
    requires forall i :: 0 <= i < |r| ==> r[i].kind == kind
    ensures OfKind(r, other) == (if other == kind then SumRewards(r) else 0)
    ensures other != kind ==> OfKindTo(r, other, a) == 0
  {
    if r == [] {
    } else {
      AllOfKind(r[..|r| - 1], kind, other, a);
    }
  }

  // Where every receiver is listed once, he gets the amount he is listed with.
  lemma {:induction false} ListedOnce(r: seq<Reward>, kind: RewardType, a: Address)
    requires forall i :: 0 <= i < |r| ==> r[i].kind == kind
    requires forall i, j :: 0 <= i < j < |r| ==> r[i].to != r[j].to
    ensures (forall i :: 0 <= i < |r| ==> r[i].to != a) ==> OfKindTo(r, kind, a) == 0
    ensures forall i :: 0 <= i < |r| && r[i].to == a ==> OfKindTo(r, kind, a) == r[i].amount
  {
    if r == [] {
    } else {
      ListedOnce(r[..|r| - 1], kind, a);
    }
  }

  // ----- One group -----

  predicate HasShare(shares: seq<Share>, a: Address) {
    exists i :: 0 <= i < |shares| && shares[i].to == a
  }

  // Rewards of one kind for the holders of the shares, each of them once.
  ghost predicate ToHolders(r: seq<Reward>, shares: seq<Share>, kind: RewardType) {
    && (forall i :: 0 <= i < |r| ==> r[i].kind == kind && HasShare(shares, r[i].to))
    && forall i, j :: 0 <= i < j < |r| ==> r[i].to != r[j].to
  }

  lemma ListedReceivers(m: map<Address, Amount>, kind: RewardType, shares: seq<Share>)
    requires forall k <- m :: HasShare(shares, k)
    ensures ToHolders(ToRewards(m, Ascending(m.Keys), kind), shares, kind)
  {
    var keys, r := Ascending(m.Keys), ToRewards(m, Ascending(m.Keys), kind);
    forall i | 0 <= i < |r| ensures r[i].kind == kind && r[i].to == keys[i] && HasShare(shares, r[i].to) { assert keys[i] in keys; }
  }

  lemma SplitToHolders(shares: seq<Share>, total: Amount, kind: RewardType)
    requires Whole(shares)
    ensures ToHolders(Split(shares, total, kind), shares, kind)
  {
    var m := CutsByReceiver(total, shares);
    forall k | k in m ensures HasShare(shares, k) { ReceiversGetTheirCuts(total, shares, k); }
    ListedReceivers(m, kind, shares);
    SplitIsToppedUp(shares, total, kind, ToRewards(m, Ascending(m.Keys), kind));
  }

  // The floors of his shares, and of what rounding leaves over less than one unit for each share.
  predicate Fair(amount: Amount, total: Amount, shares: seq<Share>, a: Address)
    requires Proper(shares)
  {
    CutsOf(total, shares, a) <= amount < CutsOf(total, shares, a) + |shares|
  }

  lemma {:induction false} NoCuts(total: Amount, shares: seq<Share>, a: Address)
    requires Proper(shares) && (total == 0 || !HasShare(shares, a))
    ensures CutsOf(total, shares, a) == 0
  {
    if shares == [] {
    } else {
      var init, last := shares[..|shares| - 1], shares[|shares| - 1];
      if HasShare(init, a) {
        var i :| 0 <= i < |init| && init[i].to == a;
        assert shares[i].to == a;
      }
      assert shares[|shares| - 1] == last;
      NoCuts(total, init, a);
    }
  }

  lemma HolderIsListed(shares: seq<Share>, total: Amount, kind: RewardType, a: Address)
    requires Whole(shares) && HasShare(shares, a)
    ensures exists i :: 0 <= i < |Split(shares, total, kind)| && Split(shares, total, kind)[i].to == a
  {
    SumCutsOfWhole(total, shares);
    var m := CutsByReceiver(total, shares);
    ReceiversGetTheirCuts(total, shares, a);
    var keys := Ascending(m.Keys);
    assert a in keys;
    var i :| 0 <= i < |keys| && keys[i] == a;
    ReceiversGetTheirCuts(total, shares, shares[0].to);
    assert Split(shares, total, kind)[i].to == a;
  }

  lemma SplitIsFairTo(shares: seq<Share>, total: Amount, kind: RewardType, a: Address)
    requires Whole(shares)
    ensures Fair(OfKindTo(Split(shares, total, kind), kind, a), total, shares, a)
  {
    var r := Split(shares, total, kind);
    SplitToHolders(shares, total, kind);
    ListedOnce(r, kind, a);
    if HasShare(shares, a) {
      HolderIsListed(shares, total, kind, a);
      var k :| 0 <= k < |r| && r[k].to == a;
      SplitIsFair(shares, total, kind, k);
    } else {
      NoCuts(total, shares, a);
    }
  }

  // What is distributed among shares that are a whole goes to their holders entirely.
  lemma Distributed(rewards: seq<Reward>, shares: seq<Share>, total: Amount, kind: RewardType) returns (added: seq<Reward>)
    requires Whole(shares)
    ensures Distribute(rewards, shares, total, kind) == (rewards + added, 0)
    ensures ToHolders(added, shares, kind) && SumRewards(added) == total
    ensures forall a :: Fair(OfKindTo(added, kind, a), total, shares, a)
  {
    if total == 0 {
      added := [];
      assert rewards + added == rewards;
      forall a ensures Fair(OfKindTo(added, kind, a), total, shares, a) { NoCuts(total, shares, a); }
    } else {
      added := Split(shares, total, kind);
      SplitConserves(shares, total, kind);
      SplitToHolders(shares, total, kind);
      forall a ensures Fair(OfKindTo(added, kind, a), total, shares, a) { SplitIsFairTo(shares, total, kind, a); }
    }
  }

  // ----- The returns -----

  lemma Returned(back: map<Address, Amount>, a: Address)
    ensures var r := ReturnRewards(back);
            && (forall i :: 0 <= i < |r| ==> r[i].kind == SponsoredReturn && r[i].to in back)
            && OfKindTo(r, SponsoredReturn, a) == Lookup(back, a)
  {
    var r, keys := ReturnRewards(back), Ascending(back.Keys);
    forall i | 0 <= i < |r| ensures r[i].kind == SponsoredReturn && r[i].to == keys[i] && r[i].to in back { assert keys[i] in keys; }
    ListedOnce(r, SponsoredReturn, a);
    if a in back {
      var i :| 0 <= i < |keys| && keys[i] == a;
      assert r[i].to == a;
    }
  }

  // ----- The whole list -----

  // The rewards of a block by group.
  datatype Lists = Lists(authors: seq<Reward>, channels: seq<Reward>, storages: seq<Reward>, refunds: seq<Reward>, own: seq<Reward>) {
    function Of(kind: RewardType): seq<Reward> {
      match kind
      case Author => authors
      case Channel => channels
      case Storage => storages
      case SponsoredReturn => refunds
      case Miner => own
    }

    function All(): seq<Reward> { authors + channels + storages + refunds + own }

    ghost predicate Sorted() {
      forall kind: RewardType, i :: 0 <= i < |Of(kind)| ==> Of(kind)[i].kind == kind
    }

    // In the list of all rewards a group is what it is by itself.
    lemma GroupIn(kind: RewardType, a: Address)
      requires Sorted()
      ensures OfKind(All(), kind) == SumRewards(Of(kind)) && OfKindTo(All(), kind, a) == OfKindTo(Of(kind), kind, a)
    {
      OfKindConcat(authors, channels, kind, a);
      OfKindConcat(authors + channels, storages, kind, a);
      OfKindConcat(authors + channels + storages, refunds, kind, a);
      OfKindConcat(authors + channels + storages + refunds, own, kind, a);
      forall other: RewardType
        ensures OfKind(Of(other), kind) == (if other == kind then SumRewards(Of(kind)) else 0)
        ensures other != kind ==> OfKindTo(Of(other), kind, a) == 0
      {
        assert forall i :: 0 <= i < |Of(other)| ==> Of(other)[i].kind == other;
        AllOfKind(Of(other), other, kind, a);
      }
      assert authors == Of(RewardType.Author) && channels == Of(RewardType.Channel) && storages == Of(RewardType.Storage);
      assert refunds == Of(SponsoredReturn) && own == Of(RewardType.Miner);
    }
  }

  // Who may receive a reward of a block with views.
  predicate Entitled(r: Reward, stats: Stats, back: map<Address, Amount>, miner: Address) {
    match r.kind
    case Author => HasShare(stats.authors, r.to)
    case Channel => HasShare(stats.channels, r.to)
    case Storage => HasShare(stats.storages, r.to)
    case SponsoredReturn => r.to in back
    case Miner => r.to == miner
  }

  // Of what the emission and the slices give, the authors get 40 and 50 percent, the channels 30
  // of both, the miner 10 of the emission, the storages the rest of both, and the sponsors their
  // returns.
  ghost predicate PaidInParts(list: seq<Reward>, emission: Amount, sponsored: Amount, back: map<Address, Amount>) {
    var miner, author, channel := emission * 10 / 100, emission * 40 / 100, emission * 30 / 100;
    && OfKind(list, RewardType.Miner) == miner
    && OfKind(list, RewardType.Author) == author + sponsored * 50 / 100
    && OfKind(list, RewardType.Channel) == channel + sponsored * 30 / 100
    && OfKind(list, RewardType.Storage) == (emission - miner - author - channel) + (sponsored - sponsored * 50 / 100 - sponsored * 30 / 100)
    && OfKind(list, SponsoredReturn) == Total(back)
  }

  // Within its group everybody gets what his shares give, up to the rounding.
  ghost predicate SharedFairly(list: seq<Reward>, stats: Stats, back: map<Address, Amount>)
    requires OkStats(stats)
  {
    forall a ::
      && Fair(OfKindTo(list, RewardType.Author, a), OfKind(list, RewardType.Author), stats.authors, a)
      && Fair(OfKindTo(list, RewardType.Channel, a), OfKind(list, RewardType.Channel), stats.channels, a)
      && Fair(OfKindTo(list, RewardType.Storage, a), OfKind(list, RewardType.Storage), stats.storages, a)
      && OfKindTo(list, SponsoredReturn, a) == Lookup(back, a)
  }

  ghost predicate OnlyEntitled(list: seq<Reward>, stats: Stats, back: map<Address, Amount>, miner: Address) {
    forall i :: 0 <= i < |list| ==> Entitled(list[i], stats, back, miner)
  }

  // One group: all its coins, in fair amounts, to those who hold a share.
  ghost predicate GroupPaid(r: seq<Reward>, shares: seq<Share>, total: Amount, kind: RewardType) {
    && Whole(shares) && ToHolders(r, shares, kind) && SumRewards(r) == total
    && forall a :: Fair(OfKindTo(r, kind, a), total, shares, a)
  }

  ghost predicate OwnPaid(own: seq<Reward>, miner: Address, amount: Amount) {
    SumRewards(own) == amount && forall i :: 0 <= i < |own| ==> own[i].kind == RewardType.Miner && own[i].to == miner
  }

  ghost predicate InGroups(g: Lists, stats: Stats, parts: Parts, back: map<Address, Amount>, miner: Address) {
    && GroupPaid(g.authors, stats.authors, parts.author, RewardType.Author)
    && GroupPaid(g.channels, stats.channels, parts.channel, RewardType.Channel)
    && GroupPaid(g.storages, stats.storages, parts.storage, RewardType.Storage)
    && g.refunds == ReturnRewards(back) && OwnPaid(g.own, miner, parts.miner)
  }

  lemma OwnReward(before: seq<Reward>, miner: Address, amount: Amount) returns (own: seq<Reward>)
    ensures WithMiner(before, miner, amount) == before + own && OwnPaid(own, miner, amount)
  {
    own := if amount == 0 then [] else [Reward(miner, amount, RewardType.Miner)];
    assert own != [] ==> own[..0] == [];
  }

  lemma GroupsPaid(stats: Stats, parts: Parts) returns (authors: seq<Reward>, channels: seq<Reward>, storages: seq<Reward>)
    requires OkStats(stats) && stats.viewed != []
    ensures GroupRewards(stats, parts) == (authors + channels + storages, 0)
    ensures GroupPaid(authors, stats.authors, parts.author, RewardType.Author)
    ensures GroupPaid(channels, stats.channels, parts.channel, RewardType.Channel)
    ensures GroupPaid(storages, stats.storages, parts.storage, RewardType.Storage)
  {
    authors := Distributed([], stats.authors, parts.author, RewardType.Author);
    assert [] + authors == authors;
    channels := Distributed(authors, stats.channels, parts.channel, RewardType.Channel);
    storages := Distributed(authors + channels, stats.storages, parts.storage, RewardType.Storage);
  }

  lemma ListInGroups(stats: Stats, parts: Parts, back: map<Address, Amount>, miner: Address) returns (g: Lists)
    requires OkStats(stats) && stats.viewed != []
    ensures ListFor(stats, parts, back, miner) == g.All() && InGroups(g, stats, parts, back, miner)
  {
    var authors, channels, storages := GroupsPaid(stats, parts);
    var own := OwnReward(authors + channels + storages + ReturnRewards(back), miner, parts.miner);
    g := Lists(authors, channels, storages, ReturnRewards(back), own);
  }

  lemma GroupsAreSorted(g: Lists, stats: Stats, parts: Parts, back: map<Address, Amount>, miner: Address)
    requires InGroups(g, stats, parts, back, miner)
    ensures g.Sorted()
  {
    Returned(back, "");
    forall kind: RewardType, i | 0 <= i < |g.Of(kind)| ensures g.Of(kind)[i].kind == kind {
      match kind
      case Author => assert ToHolders(g.authors, stats.authors, RewardType.Author);
      case Channel => assert ToHolders(g.channels, stats.channels, RewardType.Channel);
      case Storage => assert ToHolders(g.storages, stats.storages, RewardType.Storage);
      case SponsoredReturn =>
      case Miner =>
    }
  }

  lemma GroupsAreParts(g: Lists, stats: Stats, emission: Amount, sponsored: Amount, back: map<Address, Amount>, miner: Address)
    requires InGroups(g, stats, PartsOf(emission, sponsored), back, miner)
    ensures PaidInParts(g.All(), emission, sponsored, back)
  {
    GroupsAreSorted(g, stats, PartsOf(emission, sponsored), back, miner);
    ReturnRewardsSum(back);
    forall kind: RewardType ensures OfKind(g.All(), kind) == SumRewards(g.Of(kind)) { g.GroupIn(kind, ""); }
  }

  lemma GroupsAreFair(g: Lists, stats: Stats, parts: Parts, back: map<Address, Amount>, miner: Address)
    requires OkStats(stats) && InGroups(g, stats, parts, back, miner)
    ensures SharedFairly(g.All(), stats, back)
  {
    GroupsAreSorted(g, stats, parts, back, miner);
    forall a
      ensures Fair(OfKindTo(g.All(), RewardType.Author, a), OfKind(g.All(), RewardType.Author), stats.authors, a)
      ensures Fair(OfKindTo(g.All(), RewardType.Channel, a), OfKind(g.All(), RewardType.Channel), stats.channels, a)
      ensures Fair(OfKindTo(g.All(), RewardType.Storage, a), OfKind(g.All(), RewardType.Storage), stats.storages, a)
      ensures OfKindTo(g.All(), SponsoredReturn, a) == Lookup(back, a)
    {
      g.GroupIn(RewardType.Author, a);
      g.GroupIn(RewardType.Channel, a);
      g.GroupIn(RewardType.Storage, a);
      g.GroupIn(SponsoredReturn, a);
      Returned(back, a);
    }
  }

  lemma GroupsAreEntitled(g: Lists, stats: Stats, parts: Parts, back: map<Address, Amount>, miner: Address)
    requires InGroups(g, stats, parts, back, miner)
    ensures OnlyEntitled(g.All(), stats, back, miner)
  {
    GroupsAreSorted(g, stats, parts, back, miner);
    Returned(back, "");
  }

  lemma RewardsInParts(stats: Stats, emission: Amount, sponsored: Amount, back: map<Address, Amount>, miner: Address)
    requires OkStats(stats) && stats.viewed != []
    ensures PaidInParts(RewardList(stats, emission, sponsored, back, miner), emission, sponsored, back)
    ensures SharedFairly(RewardList(stats, emission, sponsored, back, miner), stats, back)
    ensures OnlyEntitled(RewardList(stats, emission, sponsored, back, miner), stats, back, miner)
  {
    var g := ListInGroups(stats, PartsOf(emission, sponsored), back, miner);
    GroupsAreParts(g, stats, emission, sponsored, back, miner);
    GroupsAreFair(g, stats, PartsOf(emission, sponsored), back, miner);
    GroupsAreEntitled(g, stats, PartsOf(emission, sponsored), back, miner);
  }

  // ----- The rewards of an accepted block -----

  // With anything viewed, the rewards of an accepted block are the parts of the emission and of
  // the slices its uses paid; the shares are those of its service reports.
  lemma BlockInParts(w: World, table: seq<Amount>, l: Ledger, blk: Block)
    requires Takes(w, l, blk) && ApplyBlock(w, table, l, blk).Some? && Viewed(w, blk) != []
    ensures var d := ApplyAll(w, l, blk.txs, blk.miner).docs;
            var grants, stats, back := GrantDocs(d, w.chain, Viewed(w, blk), DueIn(w, d, blk), Forward), Shares(w, blk), CancelReturns(d, blk.txs);
            && grants.Some? && stats.Some? && back.Some? && Emission(table, w.chain.length).Some?
            && var all := AddPayments(back.value, grants.value.1.pays);
               && PaidInParts(blk.rewards, Emission(table, w.chain.length).value, Total(Amounts(grants.value.0.pays)), all)
               && SharedFairly(blk.rewards, stats.value, all) && OnlyEntitled(blk.rewards, stats.value, all, blk.miner)
  {
    var d := ApplyAll(w, l, blk.txs, blk.miner).docs;
    GrantParts(w, table, d, blk, DueIn(w, d, blk), Forward);
    var (uses, expiries) := GrantDocs(d, w.chain, Viewed(w, blk), DueIn(w, d, blk), Forward).value;
    RewardsInParts(Shares(w, blk).value, Emission(table, w.chain.length).value, Total(Amounts(uses.pays)),
                   AddPayments(CancelReturns(d, blk.txs).value, expiries.pays), blk.miner);
  }
}
