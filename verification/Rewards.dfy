/** Splitting a block's reward by the shares that the service statistics gave. */
module Rewards {
  import opened Basics
  import opened Ordering
  import opened Totals

  // A share of num/den of what is distributed.
  datatype Share = Share(to: Address, num: nat, den: nat)

  datatype RewardType = Miner | Author | Channel | Storage | SponsoredReturn

  datatype Reward = Reward(to: Address, amount: Amount, kind: RewardType)

  predicate Proper(shares: seq<Share>) {
    forall i :: 0 <= i < |shares| ==> shares[i].den > 0
  }

  function SumShares(shares: seq<Share>): real
    requires Proper(shares)
  {
    if shares == [] then 0.0
    else
      var last := shares[|shares| - 1];
      SumShares(shares[..|shares| - 1]) + last.num as real / last.den as real
  }

  // What one share gets: the floor of its part.
  function Cut(total: Amount, s: Share): Amount
    requires s.den > 0
  {
    total * s.num / s.den
  }

  function SumCuts(total: Amount, shares: seq<Share>): Amount
    requires Proper(shares)
  {
    if shares == [] then 0 else SumCuts(total, shares[..|shares| - 1]) + Cut(total, shares[|shares| - 1])
  }

  function SumRewards(rewards: seq<Reward>): Amount {
    if rewards == [] then 0 else SumRewards(rewards[..|rewards| - 1]) + rewards[|rewards| - 1].amount
  }

  // What the shares of one receiver get together.
  function CutsOf(total: Amount, shares: seq<Share>, to: Address): Amount
    requires Proper(shares)
  {
    if shares == [] then 0
    else
      var last := shares[|shares| - 1];
      CutsOf(total, shares[..|shares| - 1], to) + if last.to == to then Cut(total, last) else 0
  }

  // What the share is worth, not rounded.
  function Part(total: Amount, s: Share): real
    requires s.den > 0
  {
    total as real * (s.num as real / s.den as real)
  }

  // ----- Floors -----

  lemma FloorBounds(n: nat, d: nat)
    requires d > 0
    ensures (n / d) as real <= n as real / d as real < (n / d) as real + 1.0
  {
    var q, r := n / d, n % d;
    assert n == q * d + r;
    assert n as real == q as real * d as real + r as real;
    assert n as real / d as real == q as real + r as real / d as real;
  }

  lemma CutBounds(total: Amount, s: Share)
    requires s.den > 0
    ensures Cut(total, s) as real <= Part(total, s) < Cut(total, s) as real + 1.0
  {
    FloorBounds(total * s.num, s.den);
    assert (total * s.num) as real == total as real * s.num as real;
    assert total as real * s.num as real / s.den as real == total as real * (s.num as real / s.den as real);
  }

  function SumParts(total: Amount, shares: seq<Share>): real
    requires Proper(shares)
  {
    if shares == [] then 0.0 else SumParts(total, shares[..|shares| - 1]) + Part(total, shares[|shares| - 1])
  }

  lemma Distributes(x: real, a: real, b: real)
    ensures x * (a + b) == x * a + x * b
  {}

  lemma {:induction false} SumPartsIsPart(total: Amount, shares: seq<Share>)
    requires Proper(shares)
    ensures SumParts(total, shares) == total as real * SumShares(shares)
  {
    if shares == [] {
    } else {
      var init, last := shares[..|shares| - 1], shares[|shares| - 1];
      SumPartsIsPart(total, init);
      Distributes(total as real, SumShares(init), last.num as real / last.den as real);
    }
  }

  // The floors lose less than one unit per share.
  lemma {:induction false} SumCutsBounds(total: Amount, shares: seq<Share>)
    requires Proper(shares)
    ensures SumCuts(total, shares) as real <= SumParts(total, shares) <= SumCuts(total, shares) as real + |shares| as real
    ensures shares != [] ==> SumParts(total, shares) < SumCuts(total, shares) as real + |shares| as real
  {
    if shares == [] {
    } else {
      SumCutsBounds(total, shares[..|shares| - 1]);
      CutBounds(total, shares[|shares| - 1]);
    }
  }

  lemma SumCutsOfWhole(total: Amount, shares: seq<Share>)
    requires Proper(shares) && shares != [] && SumShares(shares) == 1.0
    ensures SumCuts(total, shares) <= total < SumCuts(total, shares) + |shares|
  {
    SumCutsBounds(total, shares);
    SumPartsIsPart(total, shares);
    assert total as real * 1.0 == total as real;
  }

  lemma {:induction false} SumCutsGrows(total: Amount, shares: seq<Share>, k: nat)
    requires Proper(shares) && k <= |shares|
    ensures SumCuts(total, shares[..k]) <= SumCuts(total, shares)
    decreases |shares| - k
  {
    if k < |shares| {
      assert shares[..k + 1][..k] == shares[..k];
      SumCutsGrows(total, shares, k + 1);
    } else {
      assert shares[..k] == shares;
    }
  }

  // ----- Distributing -----

  // The receivers with what their shares add up to.
  function CutsByReceiver(total: Amount, shares: seq<Share>): map<Address, Amount>
    requires Proper(shares)
  {
    if shares == [] then map[]
    else
      var m := CutsByReceiver(total, shares[..|shares| - 1]);
      var last := shares[|shares| - 1];
      m[last.to := Lookup(m, last.to) + Cut(total, last)]
  }

  lemma {:induction false} ReceiversGetTheirCuts(total: Amount, shares: seq<Share>, a: Address)
    requires Proper(shares)
    ensures Lookup(CutsByReceiver(total, shares), a) == CutsOf(total, shares, a)
    ensures Total(CutsByReceiver(total, shares)) == SumCuts(total, shares)
    ensures a in CutsByReceiver(total, shares) <==> exists i :: 0 <= i < |shares| && shares[i].to == a
  {
    if shares == [] {
    } else {
      var init, last := shares[..|shares| - 1], shares[|shares| - 1];
      ReceiversGetTheirCuts(total, init, a);
      var m := CutsByReceiver(total, init);
      TotalSet(m, last.to, Lookup(m, last.to) + Cut(total, last));
      if a in CutsByReceiver(total, shares) && a != last.to {
        var i :| 0 <= i < |init| && init[i].to == a;
        assert shares[i].to == a;
      }
    }
  }

  // One reward for every receiver of the table, ascending.
  function ToRewards(m: map<Address, Amount>, keys: seq<Address>, kind: RewardType): (r: seq<Reward>)
    ensures |r| == |keys|
  {
    seq(|keys|, i requires 0 <= i < |keys| => Reward(keys[i], Lookup(m, keys[i]), kind))
  }

  lemma {:induction false} ToRewardsSum(m: map<Address, Amount>, keys: seq<Address>, kind: RewardType)
    ensures SumRewards(ToRewards(m, keys, kind)) == SumAt(m, keys)
  {
    if keys == [] {
    } else {
      ToRewardsSum(m, keys[..|keys| - 1], kind);
      assert ToRewards(m, keys, kind)[..|keys| - 1] == ToRewards(m, keys[..|keys| - 1], kind);
    }
  }

  // The last reward takes what rounding left over.
  function TopUp(r: seq<Reward>, rest: Amount): seq<Reward>
    requires r != []
  {
    r[|r| - 1 := r[|r| - 1].(amount := r[|r| - 1].amount + rest)]
  }

  lemma TopUpSum(r: seq<Reward>, rest: Amount)
    requires r != []
    ensures SumRewards(TopUp(r, rest)) == SumRewards(r) + rest
  {
    assert TopUp(r, rest)[..|r| - 1] == r[..|r| - 1];
  }

  lemma {:induction false} SumRewardsConcat(r: seq<Reward>, r': seq<Reward>)
    ensures SumRewards(r + r') == SumRewards(r) + SumRewards(r')
  {
    if r' == [] {
      assert r + r' == r;
    } else {
      SumRewardsConcat(r, r'[..|r'| - 1]);
      assert (r + r')[..|r + r'| - 1] == r + r'[..|r'| - 1];
    }
  }

  // The rewards for shares that are a whole.
  function Split(shares: seq<Share>, total: Amount, kind: RewardType): seq<Reward>
    requires Proper(shares) && shares != [] && SumShares(shares) == 1.0
  {
    SumCutsOfWhole(total, shares);
    var m := CutsByReceiver(total, shares);
    ReceiversGetTheirCuts(total, shares, shares[0].to);
    TopUp(ToRewards(m, Ascending(m.Keys), kind), total - SumCuts(total, shares))
  }

  // What is granted plus what is handed back is exactly what there was to distribute.
  lemma SplitConserves(shares: seq<Share>, total: Amount, kind: RewardType)
    requires Proper(shares) && shares != [] && SumShares(shares) == 1.0
    ensures SumRewards(Split(shares, total, kind)) == total
  {
    SumCutsOfWhole(total, shares);
    var m := CutsByReceiver(total, shares);
    ReceiversGetTheirCuts(total, shares, shares[0].to);
    ToRewardsSum(m, Ascending(m.Keys), kind);
    SumAtIsTotal(m, Ascending(m.Keys));
    TopUpSum(ToRewards(m, Ascending(m.Keys), kind), total - SumCuts(total, shares));
  }

  // Every receiver gets the floors of his shares, in ascending order of the receivers; only the
  // last one gets the rounding rest on top, and that is less than the number of shares.
  lemma SplitIsFair(shares: seq<Share>, total: Amount, kind: RewardType, k: nat)
    requires Proper(shares) && shares != [] && SumShares(shares) == 1.0
    requires k < |Split(shares, total, kind)|
    ensures var r := Split(shares, total, kind);
            var floors := CutsOf(total, shares, r[k].to);
            && r[k].kind == kind
            && (k < |r| - 1 ==> r[k].amount == floors)
            && floors <= r[k].amount < floors + |shares|
            && forall j :: 0 <= j < k ==> Less(r[j].to, r[k].to)
  {
    AscendingIsSorted(CutsByReceiver(total, shares).Keys);
    SumCutsOfWhole(total, shares);
    ReceiversGetTheirCuts(total, shares, Split(shares, total, kind)[k].to);
  }

  // Cuts every share off the total; `ok` is false where the rest would go below zero.
  method TakeShares(shares: seq<Share>, total: Amount) returns (ok: bool, rest: Amount, byReceiver: map<Address, Amount>)
    requires Proper(shares) && shares != [] && SumShares(shares) == 1.0
    ensures ok && rest == total - SumCuts(total, shares) && byReceiver == CutsByReceiver(total, shares)
  {
    SumCutsOfWhole(total, shares);
    rest, byReceiver := total, map[];
    for n := 0 to |shares|
      invariant rest == total - SumCuts(total, shares[..n])
      invariant byReceiver == CutsByReceiver(total, shares[..n])
    {
      assert shares[..n + 1][..n] == shares[..n];
      SumCutsGrows(total, shares, n + 1);
      var amount := total * shares[n].num / shares[n].den;
      if rest < amount { return false, rest, byReceiver; }
      rest := rest - amount;
      byReceiver := byReceiver[shares[n].to := Lookup(byReceiver, shares[n].to) + amount];
    }
    assert shares[..|shares|] == shares;
    ok := true;
  }

  method ListRewards(byReceiver: map<Address, Amount>, kind: RewardType) returns (granted: seq<Reward>)
    ensures granted == ToRewards(byReceiver, Ascending(byReceiver.Keys), kind)
  {
    var keys := Ascending(byReceiver.Keys);
    granted := [];
    for n := 0 to |keys|
      invariant granted == ToRewards(byReceiver, keys[..n], kind)
    {
      granted := granted + [Reward(keys[n], Lookup(byReceiver, keys[n]), kind)];
    }
    assert keys[..|keys|] == keys;
  }

  lemma TopUpWithNothing(r: seq<Reward>)
    requires r != []
    ensures TopUp(r, 0) == r
  {}

  lemma SomeReceiver(shares: seq<Share>, total: Amount, kind: RewardType)
    requires Proper(shares) && shares != []
    ensures ToRewards(CutsByReceiver(total, shares), Ascending(CutsByReceiver(total, shares).Keys), kind) != []
  {
    ReceiversGetTheirCuts(total, shares, shares[0].to);
    var m := CutsByReceiver(total, shares);
    assert shares[0].to in m;
    assert Ascending(m.Keys) != [];
  }

  lemma SplitIsToppedUp(shares: seq<Share>, total: Amount, kind: RewardType, granted: seq<Reward>)
    requires Proper(shares) && shares != [] && SumShares(shares) == 1.0
    requires granted == ToRewards(CutsByReceiver(total, shares), Ascending(CutsByReceiver(total, shares).Keys), kind)
    ensures granted != [] && SumCuts(total, shares) <= total
    ensures Split(shares, total, kind) == TopUp(granted, total - SumCuts(total, shares))
  {
    SumCutsOfWhole(total, shares);
    SomeReceiver(shares, total, kind);
  }

  // The shares cut off, listed by receiver, the rest given to the last one.
  method DistributeShares(shares: seq<Share>, total: Amount, kind: RewardType) returns (ok: bool, granted: seq<Reward>)
    requires Proper(shares) && shares != [] && SumShares(shares) == 1.0
    ensures ok && granted == Split(shares, total, kind)
  {
    var rest, byReceiver;
    ok, rest, byReceiver := TakeShares(shares, total);
    if !ok { return false, []; }
    granted := ListRewards(byReceiver, kind);
    SplitIsToppedUp(shares, total, kind, granted);
    TopUpWithNothing(granted);
    if rest > 0 { granted := TopUp(granted, rest); }
  }

  // `rest` is what the caller gets back.
  method DistributeRewards(rewards: seq<Reward>, shares: seq<Share>, total: Amount, kind: RewardType)
    returns (ok: bool, rewards': seq<Reward>, rest: Amount)
    requires Proper(shares)
    requires shares != [] ==> SumShares(shares) == 1.0
    ensures ok
    ensures shares == [] || total == 0 ==> rewards' == rewards && rest == total
    ensures shares != [] && total != 0 ==> rewards' == rewards + Split(shares, total, kind) && rest == 0
    ensures SumRewards(rewards') + rest == SumRewards(rewards) + total
  {
    if shares == [] || total == 0 { return true, rewards, total; }
    var granted;
    ok, granted := DistributeShares(shares, total, kind);
    SplitConserves(shares, total, kind);
    SumRewardsConcat(rewards, granted);
    return ok, rewards + granted, 0;
  }
}
