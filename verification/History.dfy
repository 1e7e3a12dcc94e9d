/** The history of an account: its transactions and rewards in a window of blocks. */
module History {
  import opened Basics
  import opened ActionLogs
  import opened Journals
  import opened Commander

  // ----- Breaking two ranges -----

  datatype Range = Range(min: nat, max: nat) {
    predicate Has(i: int) { min <= i < max }
    predicate Empty() { min == max }
    predicate Before(r: Range) { Empty() || r.Empty() || max <= r.min }
    predicate Ok() { min <= max && (Empty() ==> max == 0) }
  }

  datatype Broken = Broken(rw1: Range, tx1: Range, both: Range, rw2: Range, tx2: Range)

  // The stretches in the order they are walked; of two neighbours one is empty, or they follow
  // one another.
  function Stretches(r: Broken): seq<Range> {
    [r.tx1, r.rw1, r.both, r.tx2, r.rw2]
  }

  ghost predicate Ordered(s: seq<Range>) {
    && (forall i :: 0 <= i < |s| ==> s[i].Ok())
    && forall i, j :: 0 <= i < j < |s| ==> s[i].Before(s[j])
  }

  // Two ranges are cut into stretches of their own and one in common; empty ranges and
  // ranges that do not meet included.
  method RangeBreak(rw: Range, tx: Range) returns (r: Broken)
    requires rw.Ok() && tx.Ok()
    ensures Ordered(Stretches(r))
    ensures forall i :: rw.Has(i) <==> r.rw1.Has(i) || r.both.Has(i) || r.rw2.Has(i)
    ensures forall i :: tx.Has(i) <==> r.tx1.Has(i) || r.both.Has(i) || r.tx2.Has(i)
  {
    var rw1, tx1, both, rw2, tx2 := Range(0, 0), Range(0, 0), Range(0, 0), Range(0, 0), Range(0, 0);
    if rw.max <= tx.min {
      rw1, tx2 := rw, tx;
    } else if tx.max <= rw.min {
      tx1, rw2 := tx, rw;
    } else {
      if rw.min < tx.min { rw1 := Range(rw.min, tx.min); }
      if tx.min < rw.min { tx1 := Range(tx.min, rw.min); }
      if rw.max > tx.max { rw2 := Range(tx.max, rw.max); }
      if tx.max > rw.max { tx2 := Range(rw.max, tx.max); }
      both := Range(Max(rw.min, tx.min), Min(rw.max, tx.max));
    }
    r := Broken(rw1, tx1, both, rw2, tx2);
  }

  // ----- Items -----

  datatype Details =
    | Received(sender: Address, hash: Hash)
    | Sent(receiver: Address, hash: Hash)
    | Sponsored(uri: Uri, start: int, end: int, hash: Hash)
    | SentFee(authority: Address, hash: Hash)
    | ReceivedFee(payer: Address, hash: Hash)
    | Granted(kind: nat)

  datatype HistoryItem = HistoryItem(block: nat, confirmations: nat, time: int, amount: Amount, details: Details)

  // What a request asks about.
  datatype Query = Query(address: Address, head: nat, blocks: seq<BlockInfo>) {
    function Confirmations(n: nat): nat { (head + WORD - n % WORD + 1) % WORD }
    function Authority(n: nat): Address { if n < |blocks| then blocks[n].authority else "" }
    function Item(n: nat, time: int, amount: Amount, details: Details): HistoryItem {
      HistoryItem(n, Confirmations(n), time, amount, details)
    }
  }

  function ActionItems(q: Query, n: nat, tx: TransactionLog): seq<HistoryItem> {
    match tx.action
    case Transfer(sender, receiver, amount) =>
      (if receiver == q.address then [q.Item(n, tx.time, amount, Received(sender, tx.hash))] else []) +
      (if sender == q.address then [q.Item(n, tx.time, amount, Sent(receiver, tx.hash))] else [])
    case SponsorUnit(sponsor, uri, start, hours, amount) =>
      if sponsor == q.address then [q.Item(n, tx.time, amount, Sponsored(uri, start, start + 3600 * hours, tx.hash))] else []
    case _ => []
  }

  function FeeItems(q: Query, n: nat, tx: TransactionLog): seq<HistoryItem> {
    var from := if InfoOf(tx).Some? then InfoOf(tx).value.from else "";
    (if from == q.address && tx.fee != 0 then [q.Item(n, tx.time, tx.fee, SentFee(q.Authority(n), tx.hash))] else []) +
    (if q.Authority(n) == q.address && tx.fee != 0 then [q.Item(n, tx.time, tx.fee, ReceivedFee(from, tx.hash))] else [])
  }

  function TransactionItems(q: Query, n: nat): TransactionLog -> seq<HistoryItem> {
    tx => ActionItems(q, n, tx) + FeeItems(q, n, tx)
  }

  // A reward carries the time of its block.
  function RewardItems(q: Query, n: nat): RewardLog -> seq<HistoryItem> {
    (reward: RewardLog) => [q.Item(n, if n < |q.blocks| then q.blocks[n].time else 0, reward.amount, Granted(reward.kind))]
  }

  function ConcatMap<A, B>(f: A -> seq<B>, xs: seq<A>): seq<B> {
    if xs == [] then [] else ConcatMap(f, xs[..|xs| - 1]) + f(xs[|xs| - 1])
  }

  lemma ConcatMapMore<A, B>(f: A -> seq<B>, xs: seq<A>, first: nat, i: nat)
    requires first <= i < |xs|
    ensures ConcatMap(f, xs[first..i + 1]) == ConcatMap(f, xs[first..i]) + f(xs[i])
  {
    assert xs[first..i + 1][..i - first] == xs[first..i];
  }

  // ----- Journals that can be walked -----

  ghost predicate InRange<T>(j: Journal<T>) {
    forall n <- j.index :: j.index[n].first + j.index[n].count <= |j.log| && n + 1 < WORD
  }

  function At<T>(j: Journal<T>, n: nat): seq<T> {
    if n in j.index && j.index[n].first + j.index[n].count <= |j.log|
    then j.log[j.index[n].first..j.index[n].first + j.index[n].count]
    else []
  }

  // The client knows the blocks that rewarded the account, and all the account's actions.
  ghost predicate Walkable(q: Query, txs: Journal<TransactionLog>, rws: Journal<RewardLog>) {
    && InRange(txs) && InRange(rws) && (forall n <- rws.index :: n < |q.blocks|)
    && forall i :: 0 <= i < |txs.log| ==> InfoOf(txs.log[i]).Some?
  }

  // The loop over the interval of a block.
  method AppendInterval<T>(f: T -> seq<HistoryItem>, j: Journal<T>, n: nat, result: seq<HistoryItem>)
    returns (result': seq<HistoryItem>)
    requires n in j.index && InRange(j)
    ensures result' == result + ConcatMap(f, At(j, n))
  {
    var value := j.index[n];
    result' := result;
    var index := value.first;
    while index != value.first + value.count
      invariant value.first <= index <= value.first + value.count
      invariant result' == result + ConcatMap(f, j.log[value.first..index])
    {
      ConcatMapMore(f, j.log, value.first, index);
      result' := result' + f(j.log[index]);
      index := index + 1;
    }
  }

  // ----- The window -----

  // With a count that overflows, everything from the start on.
  predicate InWindow(n: nat, start: nat, count: nat) {
    n >= start && (n < (start + count) % WORD || start > (start + count) % WORD)
  }

  // On words that is the window from the start on, as if nothing overflowed.
  lemma WindowIsExact(n: nat, start: nat, count: nat)
    requires n < WORD && start < WORD && count < WORD
    ensures InWindow(n, start, count) <==> start <= n < start + count
  {}

  method Selected<T>(j: Journal<T>, start: nat, count: nat) returns (chosen: set<nat>)
    ensures forall n :: n in chosen <==> n in j.index && InWindow(n, start, count)
  {
    chosen := {};
    var rest := j.index.Keys;
    while rest != {}
      invariant rest <= j.index.Keys
      invariant forall n :: n in chosen <==> n in j.index && n !in rest && InWindow(n, start, count)
      decreases rest
    {
      var n :| n in rest;
      if InWindow(n, start, count) { chosen := chosen + {n}; }
      rest := rest - {n};
    }
  }

  // The smallest range of all members; an empty one at zero if there is none.
  method Hull(s: set<nat>) returns (r: Range)
    ensures r.Ok() && forall n <- s :: r.Has(n)
    ensures s == {} ==> r == Range(0, 0)
    ensures s != {} ==> r.min in s && r.max - 1 in s
  {
    r := Range(0, 0);
    var rest := s;
    while rest != {}
      invariant rest <= s && r.min <= r.max && forall n :: n in s && n !in rest ==> r.Has(n)
      invariant rest == s ==> r == Range(0, 0)
      invariant rest != s ==> r.min in s && r.max - 1 in s
      decreases rest
    {
      var n :| n in rest;
      if rest == s { r := Range(n, n + 1); }
      else { r := Range(Min(r.min, n), Max(r.max, n + 1)); }
      rest := rest - {n};
    }
  }

  // Blocks in increasing order.
  function Listing(f: nat -> seq<HistoryItem>, end: nat): seq<HistoryItem> {
    if end == 0 then [] else Listing(f, end - 1) + f(end - 1)
  }

  // Of a block of the window, the transactions before the rewards.
  function BlockItems(q: Query, txs: Journal<TransactionLog>, rws: Journal<RewardLog>, start: nat, count: nat): nat -> seq<HistoryItem> {
    (n: nat) => if InWindow(n, start, count)
         then ConcatMap(TransactionItems(q, n), At(txs, n)) + ConcatMap(RewardItems(q, n), At(rws, n))
         else []
  }

  lemma {:induction false} ListingSkips(f: nat -> seq<HistoryItem>, lo: nat, hi: nat)
    requires lo <= hi && forall n: nat :: lo <= n < hi ==> f(n) == []
    ensures Listing(f, hi) == Listing(f, lo)
    decreases hi
  {
    if lo == hi {
    } else {
      ListingSkips(f, lo, hi - 1);
    }
  }

  // ----- The five loops -----

  // What the loops know about the sets they test.
  ghost predicate Chosen<T>(j: Journal<T>, start: nat, count: nat, s: set<nat>) {
    forall n :: n in s <==> n in j.index && InWindow(n, start, count)
  }

  lemma Unlisted(q: Query, txs: Journal<TransactionLog>, rws: Journal<RewardLog>, start: nat, count: nat,
                 setTx: set<nat>, setRw: set<nat>, n: nat)
    requires Chosen(txs, start, count, setTx) && Chosen(rws, start, count, setRw)
    requires n !in setTx && n !in setRw
    ensures BlockItems(q, txs, rws, start, count)(n) == []
  {}

  lemma Listed(q: Query, txs: Journal<TransactionLog>, rws: Journal<RewardLog>, start: nat, count: nat,
               setTx: set<nat>, setRw: set<nat>, n: nat, result: seq<HistoryItem>)
    requires Chosen(txs, start, count, setTx) && Chosen(rws, start, count, setRw)
    ensures result + Part(TransactionItems(q, n), txs, n, setTx) + Part(RewardItems(q, n), rws, n, setRw)
            == result + BlockItems(q, txs, rws, start, count)(n)
  {}

  function Part<T>(f: T -> seq<HistoryItem>, j: Journal<T>, n: nat, s: set<nat>): seq<HistoryItem> {
    if n in s then ConcatMap(f, At(j, n)) else []
  }

  method AppendPart<T>(f: T -> seq<HistoryItem>, j: Journal<T>, n: nat, s: set<nat>, looked: bool, result: seq<HistoryItem>)
    returns (result': seq<HistoryItem>)
    requires InRange(j) && (n in s ==> looked && n in j.index)
    ensures result' == result + Part(f, j, n, s)
  {
    if looked && n in s { result' := AppendInterval(f, j, n, result); } else { result' := result; }
  }

  // One round of a loop; a loop without transactions or without rewards does not look for them.
  method WalkBlock(q: Query, txs: Journal<TransactionLog>, rws: Journal<RewardLog>,
                   setTx: set<nat>, setRw: set<nat>, n: nat, withTx: bool, withRw: bool, result: seq<HistoryItem>)
    returns (result': seq<HistoryItem>)
    requires InRange(txs) && InRange(rws) && (n in setTx ==> withTx && n in txs.index) && (n in setRw ==> withRw && n in rws.index)
    ensures result' == result + Part(TransactionItems(q, n), txs, n, setTx) + Part(RewardItems(q, n), rws, n, setRw)
  {
    result' := AppendPart(TransactionItems(q, n), txs, n, setTx, withTx, result);
    result' := AppendPart(RewardItems(q, n), rws, n, setRw, withRw, result');
  }

  // The stretch is where the listing goes on: nothing is in between, and in the stretch only
  // what the loop looks for.
  ghost predicate Next(range: Range, setTx: set<nat>, setRw: set<nat>, withTx: bool, withRw: bool, from: nat) {
    && range.Ok() && (range.Empty() || from <= range.min)
    && forall n :: from <= n < range.max && (n in setTx || n in setRw) ==>
         range.Has(n) && (n in setTx ==> withTx) && (n in setRw ==> withRw)
  }

  function After(range: Range, from: nat): nat {
    if range.Empty() then from else range.max
  }

  // One block of a stretch.
  method WalkNext(q: Query, txs: Journal<TransactionLog>, rws: Journal<RewardLog>, ghost start: nat, ghost count: nat,
                  range: Range, setTx: set<nat>, setRw: set<nat>, withTx: bool, withRw: bool, ghost from: nat, n: nat, result: seq<HistoryItem>)
    returns (result': seq<HistoryItem>)
    requires Walkable(q, txs, rws) && Chosen(txs, start, count, setTx) && Chosen(rws, start, count, setRw)
    requires Next(range, setTx, setRw, withTx, withRw, from) && from <= n < range.max
    ensures result' == result + BlockItems(q, txs, rws, start, count)(n)
  {
    Listed(q, txs, rws, start, count, setTx, setRw, n, result);
    result' := WalkBlock(q, txs, rws, setTx, setRw, n, withTx, withRw, result);
  }

  // One of the five loops.
  method Walk(q: Query, txs: Journal<TransactionLog>, rws: Journal<RewardLog>, ghost start: nat, ghost count: nat,
              range: Range, setTx: set<nat>, setRw: set<nat>, withTx: bool, withRw: bool, ghost from: nat, result: seq<HistoryItem>)
    returns (result': seq<HistoryItem>)
    requires Walkable(q, txs, rws) && Chosen(txs, start, count, setTx) && Chosen(rws, start, count, setRw)
    requires Next(range, setTx, setRw, withTx, withRw, from)
    requires result == Listing(BlockItems(q, txs, rws, start, count), from)
    ensures result' == Listing(BlockItems(q, txs, rws, start, count), After(range, from))
  {
    ghost var f := BlockItems(q, txs, rws, start, count);
    result' := result;
    if range.Empty() { return; }
    forall n: nat | from <= n < range.min ensures f(n) == [] { Unlisted(q, txs, rws, start, count, setTx, setRw, n); }
    ListingSkips(f, from, range.min);
    var i := range.min;
    while i != range.max
      invariant range.min <= i <= range.max && result' == Listing(f, i)
    {
      result' := WalkNext(q, txs, rws, start, count, range, setTx, setRw, withTx, withRw, from, i, result');
      i := i + 1;
    }
  }

  function AfterAll(s: seq<Range>): nat {
    if s == [] then 0 else After(s[|s| - 1], AfterAll(s[..|s| - 1]))
  }

  lemma {:induction false} AfterStretches(s: seq<Range>, k: nat)
    requires Ordered(s) && k <= |s|
    ensures forall i :: 0 <= i < k && !s[i].Empty() ==> s[i].max <= AfterAll(s[..k])
    ensures forall j :: k <= j < |s| && !s[j].Empty() ==> AfterAll(s[..k]) <= s[j].min
  {
    if k == 0 {
    } else {
      AfterStretches(s, k - 1);
      assert s[..k][..k - 1] == s[..k - 1];
    }
  }

  ghost predicate InSome(s: seq<Range>, n: nat, used: seq<bool>) {
    exists i :: 0 <= i < |s| && i < |used| && used[i] && s[i].Has(n)
  }

  // The stretches of two hulls follow one another and together they miss nothing.
  lemma NextStretch(s: seq<Range>, k: nat, setTx: set<nat>, setRw: set<nat>, forTx: seq<bool>, forRw: seq<bool>)
    requires Ordered(s) && k < |s| == |forTx| == |forRw|
    requires (forall n <- setTx :: InSome(s, n, forTx)) && (forall n <- setRw :: InSome(s, n, forRw))
    ensures Next(s[k], setTx, setRw, forTx[k], forRw[k], AfterAll(s[..k]))
  {
    AfterStretches(s, k);
    forall n | AfterAll(s[..k]) <= n < s[k].max && (n in setTx || n in setRw)
      ensures s[k].Has(n) && (n in setTx ==> forTx[k]) && (n in setRw ==> forRw[k])
    {
      if n in setTx {
        var i :| 0 <= i < |s| && forTx[i] && s[i].Has(n);
        assert i == k;
      }
      if n in setRw {
        var i :| 0 <= i < |s| && forRw[i] && s[i].Has(n);
        assert i == k;
      }
    }
  }

  lemma PastTheEnd(s: seq<Range>, n: nat, used: seq<bool>)
    requires Ordered(s) && InSome(s, n, used)
    ensures n < AfterAll(s)
  {
    AfterStretches(s, |s|);
    assert s[..|s|] == s;
  }

  lemma Divided(r: Broken, rw: Range, tx: Range, setTx: set<nat>, setRw: set<nat>)
    requires forall i :: rw.Has(i) <==> r.rw1.Has(i) || r.both.Has(i) || r.rw2.Has(i)
    requires forall i :: tx.Has(i) <==> r.tx1.Has(i) || r.both.Has(i) || r.tx2.Has(i)
    requires (forall n <- setTx :: tx.Has(n)) && (forall n <- setRw :: rw.Has(n))
    ensures var s := Stretches(r);
            && (forall n <- setTx :: InSome(s, n, [true, false, true, true, false]))
            && forall n <- setRw :: InSome(s, n, [false, true, true, false, true])
  {
    var s := Stretches(r);
    var forTx, forRw := [true, false, true, true, false], [false, true, true, false, true];
    forall n | n in setTx ensures InSome(s, n, forTx) {
      assert tx.Has(n);
      assert forTx[0] && forTx[2] && forTx[3] && s[0] == r.tx1 && s[2] == r.both && s[3] == r.tx2;
    }
    forall n | n in setRw ensures InSome(s, n, forRw) {
      assert rw.Has(n);
      assert forRw[1] && forRw[2] && forRw[4] && s[1] == r.rw1 && s[2] == r.both && s[4] == r.rw2;
    }
  }

  // Where each loop takes up the listing.
  ghost predicate InTurn(r: Broken, setTx: set<nat>, setRw: set<nat>) {
    var a := After(r.tx1, 0); var b := After(r.rw1, a); var c := After(r.both, b); var d := After(r.tx2, c);
    && Next(r.tx1, setTx, setRw, true, false, 0) && Next(r.rw1, setTx, setRw, false, true, a)
    && Next(r.both, setTx, setRw, true, true, b) && Next(r.tx2, setTx, setRw, true, false, c)
    && Next(r.rw2, setTx, setRw, false, true, d)
  }

  function EndOf(r: Broken): nat {
    After(r.rw2, After(r.tx2, After(r.both, After(r.rw1, After(r.tx1, 0)))))
  }

  lemma EndIsAfterAll(r: Broken)
    ensures var s := Stretches(r);
            && AfterAll(s[..0]) == 0 && AfterAll(s[..1]) == After(r.tx1, 0)
            && AfterAll(s[..2]) == After(r.rw1, AfterAll(s[..1])) && AfterAll(s[..3]) == After(r.both, AfterAll(s[..2]))
            && AfterAll(s[..4]) == After(r.tx2, AfterAll(s[..3])) && AfterAll(s) == EndOf(r)
  {
    var s := Stretches(r);
    assert s[..1] == [r.tx1] && s[..2] == [r.tx1, r.rw1] && s[..3] == [r.tx1, r.rw1, r.both] && s[..5] == s;
    assert s[..1][..0] == s[..0] && s[..2][..1] == s[..1] && s[..3][..2] == s[..2] && s[..4][..3] == s[..3];
  }

  lemma BrokenInTurn(r: Broken, rw: Range, tx: Range, setTx: set<nat>, setRw: set<nat>)
    requires Ordered(Stretches(r))
    requires forall i :: rw.Has(i) <==> r.rw1.Has(i) || r.both.Has(i) || r.rw2.Has(i)
    requires forall i :: tx.Has(i) <==> r.tx1.Has(i) || r.both.Has(i) || r.tx2.Has(i)
    requires (forall n <- setTx :: tx.Has(n)) && (forall n <- setRw :: rw.Has(n))
    ensures InTurn(r, setTx, setRw)
    ensures forall n :: n in setTx || n in setRw ==> n < EndOf(r)
  {
    var s := Stretches(r);
    var forTx, forRw := [true, false, true, true, false], [false, true, true, false, true];
    Divided(r, rw, tx, setTx, setRw);
    EndIsAfterAll(r);
    NextStretch(s, 0, setTx, setRw, forTx, forRw);
    NextStretch(s, 1, setTx, setRw, forTx, forRw);
    NextStretch(s, 2, setTx, setRw, forTx, forRw);
    NextStretch(s, 3, setTx, setRw, forTx, forRw);
    NextStretch(s, 4, setTx, setRw, forTx, forRw);
    forall n | n in setTx || n in setRw ensures n < EndOf(r) {
      PastTheEnd(s, n, if n in setTx then forTx else forRw);
    }
  }

  method WalkAll(q: Query, txs: Journal<TransactionLog>, rws: Journal<RewardLog>, ghost start: nat, ghost count: nat,
                 r: Broken, setTx: set<nat>, setRw: set<nat>)
    returns (result: seq<HistoryItem>)
    requires Walkable(q, txs, rws) && Chosen(txs, start, count, setTx) && Chosen(rws, start, count, setRw)
    requires InTurn(r, setTx, setRw)
    ensures result == Listing(BlockItems(q, txs, rws, start, count), EndOf(r))
  {
    ghost var a := After(r.tx1, 0);
    ghost var b := After(r.rw1, a);
    ghost var c := After(r.both, b);
    ghost var d := After(r.tx2, c);
    result := Walk(q, txs, rws, start, count, r.tx1, setTx, setRw, true, false, 0, []);
    result := Walk(q, txs, rws, start, count, r.rw1, setTx, setRw, false, true, a, result);
    result := Walk(q, txs, rws, start, count, r.both, setTx, setRw, true, true, b, result);
    result := Walk(q, txs, rws, start, count, r.tx2, setTx, setRw, true, false, c, result);
    result := Walk(q, txs, rws, start, count, r.rw2, setTx, setRw, false, true, d, result);
  }

  lemma ListedUpTo(f: nat -> seq<HistoryItem>, a: nat, b: nat)
    requires forall n: nat :: n >= a || n >= b ==> f(n) == []
    ensures Listing(f, a) == Listing(f, b)
  {
    if a <= b { ListingSkips(f, a, b); } else { ListingSkips(f, b, a); }
  }

  // The whole request: every indexed block of the window once, in increasing order; `bound`
  // lies above all of them.
  method GetHistory(q: Query, txs: Journal<TransactionLog>, rws: Journal<RewardLog>, start: nat, count: nat, ghost bound: nat)
    returns (result: seq<HistoryItem>)
    requires Walkable(q, txs, rws)
    requires forall n :: (n in txs.index || n in rws.index) && InWindow(n, start, count) ==> n < bound
    ensures result == Listing(BlockItems(q, txs, rws, start, count), bound)
  {
    var setTx := Selected(txs, start, count);
    var setRw := Selected(rws, start, count);
    var rw := Hull(setRw);
    var tx := Hull(setTx);
    var r := RangeBreak(rw, tx);
    BrokenInTurn(r, rw, tx, setTx, setRw);
    result := WalkAll(q, txs, rws, start, count, r, setTx, setRw);
    ghost var f := BlockItems(q, txs, rws, start, count);
    ghost var end := EndOf(r);
    NothingBeyond(q, txs, rws, start, count, setTx, setRw, end, bound);
    ListedUpTo(f, end, bound);
  }

  // No block at or above either bound is listed.
  lemma NothingBeyond(q: Query, txs: Journal<TransactionLog>, rws: Journal<RewardLog>, start: nat, count: nat,
                      setTx: set<nat>, setRw: set<nat>, end: nat, bound: nat)
    requires Chosen(txs, start, count, setTx) && Chosen(rws, start, count, setRw)
    requires forall n :: n in setTx || n in setRw ==> n < end && n < bound
    ensures forall n: nat :: n >= end || n >= bound ==> BlockItems(q, txs, rws, start, count)(n) == []
  {
    forall n: nat | n >= end || n >= bound ensures BlockItems(q, txs, rws, start, count)(n) == [] {
      Unlisted(q, txs, rws, start, count, setTx, setRw, n);
    }
  }

  // ----- The history of a client that mirrors a log -----

  lemma {:induction false} EntriesKnown(n: nat, txs: seq<TransactionLog>, authority: Address, a: Address)
    ensures forall e <- TxEntries(n, txs, authority, a) :: InfoOf(e.1).Some?
  {
    if txs == [] {
    } else {
      EntriesKnown(n, txs[..|txs| - 1], authority, a);
    }
  }

  lemma {:induction false} RecordedKnown(stack: seq<Action>, a: Address)
    ensures forall e <- Recorded(stack, a) :: InfoOf(e.1).Some?
  {
    if stack == [] {
    } else {
      RecordedKnown(stack[..|stack| - 1], a);
      if stack[|stack| - 1].Block? {
        var b := stack[|stack| - 1].block;
        EntriesKnown(BlockCount(stack[..|stack| - 1]), b.transactions, b.authority, a);
      }
    }
  }

  lemma {:induction false} RewardedKnown(stack: seq<Action>, a: Address)
    ensures |Infos(stack)| == BlockCount(stack) && forall e <- Rewarded(stack, a) :: e.0 < BlockCount(stack)
  {
    if stack == [] {
    } else {
      RewardedKnown(stack[..|stack| - 1], a);
      if stack[|stack| - 1].Block? {
        RewardEntriesBlock(BlockCount(stack[..|stack| - 1]), stack[|stack| - 1].block.rewards, a);
      }
    }
  }

  lemma JournalInRange<T>(entries: seq<(nat, T)>, bound: nat)
    requires InOrder(entries, bound) && bound + 1 < WORD
    ensures InRange(JournalOf(entries)) && forall n <- JournalOf(entries).index :: exists e <- entries :: e.0 == n
  {
    var blocks := Blocks(entries);
    IndexPartitions(blocks);
    forall n | n in IndexOf(blocks)
      ensures IndexOf(blocks)[n].first + IndexOf(blocks)[n].count <= |entries| && n <= bound
      ensures exists e <- entries :: e.0 == n
    {
      var iv := IndexOf(blocks)[n];
      assert Covers(blocks, iv, n);
      assert blocks[iv.first] == n;
      assert entries[iv.first] in entries && entries[iv.first].0 == n;
      assert blocks[|blocks| - 1] == entries[|entries| - 1].0;
    }
  }

  // What a client keeps of the actions in force can always be walked.
  lemma MirrorIsWalkable(stack: seq<Action>, a: Address, head: nat)
    requires BlockCount(stack) + 1 < WORD
    ensures Walkable(Query(a, head, Infos(stack)), JournalOf(Recorded(stack, a)), JournalOf(Rewarded(stack, a)))
  {
    RecordedInOrder(stack, a);
    RewardedInOrder(stack, a);
    RecordedKnown(stack, a);
    RewardedKnown(stack, a);
    JournalInRange(Recorded(stack, a), BlockCount(stack));
    JournalInRange(Rewarded(stack, a), BlockCount(stack));
    var log := Items(Recorded(stack, a));
    forall i | 0 <= i < |log| ensures InfoOf(log[i]).Some? {
      assert Recorded(stack, a)[i] in Recorded(stack, a);
    }
  }

  lemma RewardsOfBlock(stack: seq<Action>, n: nat, a: Address)
    requires BlocksFirst(stack) && n < |stack| && stack[n].Block?
    ensures At(JournalOf(Rewarded(stack, a)), n) == Items(RewardEntries(n, stack[n].block.rewards, a))
  {
    RewardIntervalIsBlock(stack, n, a);
    var mine := RewardEntries(n, stack[n].block.rewards, a);
    if mine == [] { assert Items(mine) == []; }
  }

  lemma TransactionsOfBlock(stack: seq<Action>, n: nat, a: Address)
    requires BlocksFirst(stack) && n < |stack| && stack[n].Block?
    ensures At(JournalOf(Recorded(stack, a)), n) == Items(TxEntries(n, stack[n].block.transactions, stack[n].block.authority, a))
  {
    IntervalIsBlock(stack, n, a);
    var mine := TxEntries(n, stack[n].block.transactions, stack[n].block.authority, a);
    if mine == [] { assert Items(mine) == []; }
  }

  // For a block of the window below the pool, the history lists the block's own transactions
  // of the account, then its own rewards of the account.
  lemma HistoryOfBlock(q: Query, stack: seq<Action>, n: nat, a: Address, start: nat, count: nat)
    requires BlocksFirst(stack) && n < |stack| && stack[n].Block? && InWindow(n, start, count)
    ensures var b := stack[n].block;
            BlockItems(q, JournalOf(Recorded(stack, a)), JournalOf(Rewarded(stack, a)), start, count)(n) ==
            ConcatMap(TransactionItems(q, n), Items(TxEntries(n, b.transactions, b.authority, a)))
            + ConcatMap(RewardItems(q, n), Items(RewardEntries(n, b.rewards, a)))
  {
    TransactionsOfBlock(stack, n, a);
    RewardsOfBlock(stack, n, a);
  }
}
