/**
 The book of one sponsored content unit: who sponsored it, for which period, and the
 block times at which the unit was used.  Amounts count 10^-8 parts of a coin, times are
 seconds.  This module states what one use and one cancellation pay, and shows that the
 payments of a sponsorship telescope.
 */
module Sponsorship {
  import opened Basics
  import opened Collecting

  datatype Item = Item(
    amount: Amount, start: int, end: int,
    sponsor: Address, hash: Hash,
    pointsBefore: nat, cancelled: bool)

  datatype Book = Book(items: seq<Item>, points: seq<int>) {
    function Last(): int
      requires |points| > 0
    {
      points[|points| - 1]
    }
  }

  datatype Payment = Payment(sponsor: Address, amount: Amount)

  // ----- Well-formed books -----

  predicate OkItem(it: Item, pointCount: nat) {
    it.start < it.end && 1 <= it.pointsBefore <= pointCount && it.hash != ""
  }

  // The first time point is the start of sponsorship `i`.
  predicate OpensWith(b: Book, i: nat)
    requires |b.points| > 0 && i < |b.items|
  {
    b.points[0] == b.items[i].start
  }

  // The first time point is the start of the first sponsorship and may lie in the future;
  // the others are the times of growing blocks.
  predicate Ok(b: Book) {
    && |b.items| > 0 && |b.points| > 0 && (forall i :: i == 0 ==> OpensWith(b, i))
    && (forall i :: 0 <= i < |b.items| ==> OkItem(b.items[i], |b.points|))
    && (forall i, j :: 0 <= i < j < |b.items| ==> b.items[i].pointsBefore <= b.items[j].pointsBefore)
    && (forall i, j :: 0 <= i < j < |b.items| ==> b.items[i].hash != b.items[j].hash)
    && (forall i, j :: 1 <= i < j < |b.points| ==> b.points[i] < b.points[j])
  }

  // The time `t` belongs to a block after every recorded use.
  predicate Fresh(b: Book, t: int) {
    forall i :: 1 <= i < |b.points| ==> b.points[i] < t
  }

  // ----- What an item has earned and what is left of it -----

  function Rate(it: Item): nat
    requires it.start < it.end
  {
    it.amount / (it.end - it.start)
  }

  function Rest(it: Item): nat
    requires it.start < it.end
  {
    it.amount % (it.end - it.start)
  }

  // The whole amount, cut at time `x` of its period.
  function Earned(it: Item, x: int): nat
    requires it.start <= x <= it.end && it.start < it.end
  {
    Rate(it) * (x - it.start) + if x == it.end then Rest(it) else 0
  }

  // One slice as the code computes it: full seconds at the rate, the remainder with the last.
  function Part(it: Item, lo: int, hi: int): nat
    requires it.start < it.end && lo <= hi
  {
    Rate(it) * (hi - lo) + if hi == it.end then Rest(it) else 0
  }

  lemma EarnedEnds(it: Item)
    requires it.start < it.end
    ensures Earned(it, it.start) == 0
    ensures Earned(it, it.end) == it.amount
  {
    var d := it.end - it.start;
    assert it.amount == (it.amount / d) * d + it.amount % d;
  }

  lemma PartIsEarnedDifference(it: Item, lo: int, hi: int)
    requires it.start <= lo < hi <= it.end
    ensures Part(it, lo, hi) == Earned(it, hi) - Earned(it, lo)
  {
    var r := Rate(it);
    assert r * (hi - it.start) == r * (hi - lo) + r * (lo - it.start);
  }

  lemma EarnedMonotone(it: Item, x: int, y: int)
    requires it.start <= x <= y <= it.end && it.start < it.end
    ensures Earned(it, x) <= Earned(it, y) <= it.amount
  {
    EarnedEnds(it);
    if x < y { PartIsEarnedDifference(it, x, y); }
    if y < it.end { PartIsEarnedDifference(it, y, it.end); }
  }

  function Clamp(it: Item, x: int): int
    requires it.start < it.end
    ensures it.start <= Clamp(it, x) <= it.end
  {
    Max(it.start, Min(x, it.end))
  }

  // The moment up to which item `i` has been served.
  function Covered(b: Book, i: nat): int
    requires Ok(b) && i < |b.items|
    ensures b.items[i].start <= Covered(b, i) <= b.items[i].end
  {
    var it := b.items[i];
    if it.pointsBefore == |b.points| then it.start else Clamp(it, b.Last())
  }

  // What is still owed by item `i`.
  function Remaining(b: Book, i: nat): nat
    requires Ok(b) && i < |b.items|
  {
    var it := b.items[i];
    EarnedMonotone(it, Covered(b, i), it.end);
    if it.cancelled then 0 else it.amount - Earned(it, Covered(b, i))
  }

  // ----- The scan over the items -----

  // Not exhausted: the index keeps exactly these items.
  predicate Active(b: Book, i: nat)
    requires |b.points| > 0 && i < |b.items|
  {
    !(b.Last() >= b.items[i].end && |b.points| > b.items[i].pointsBefore)
  }

  function PartStart(b: Book, it: Item): int
    requires |b.points| > 0
  {
    if it.pointsBefore == |b.points| then it.start else Max(b.Last(), it.start)
  }

  // A cancellation reclaims up to the end of the period, a use pays up to now.
  function PartEnd(it: Item, t: int, cancel: Hash): int {
    if cancel != "" then it.end else Min(t, it.end)
  }

  predicate ScanTime(b: Book, t: int)
    requires |b.points| > 0
  {
    t > b.Last() || |b.points| == 1
  }

  predicate Visited(b: Book, i: nat, t: int, cancel: Hash)
    requires |b.points| > 0 && i < |b.items|
  {
    && Active(b, i) && b.items[i].start < t
    && if cancel == "" then !b.items[i].cancelled else b.items[i].hash == cancel
  }

  // The casts of durations to unsigned never see a negative number.
  lemma SliceIsForward(b: Book, i: nat, t: int, cancel: Hash)
    requires Ok(b) && i < |b.items| && ScanTime(b, t) && Visited(b, i, t, cancel)
    ensures PartStart(b, b.items[i]) == Covered(b, i)
    ensures PartStart(b, b.items[i]) < PartEnd(b.items[i], t, cancel)
  {
    assert OkItem(b.items[i], |b.points|);
  }

  function Slice(b: Book, i: nat, t: int, cancel: Hash): nat
    requires Ok(b) && i < |b.items| && ScanTime(b, t) && Visited(b, i, t, cancel)
  {
    SliceIsForward(b, i, t, cancel);
    Part(b.items[i], PartStart(b, b.items[i]), PartEnd(b.items[i], t, cancel))
  }

  // What the scan writes down for item `i`; a zero slice is skipped.
  function Line(b: Book, i: nat, t: int, cancel: Hash): Option<Payment>
    requires Ok(b) && i < |b.items| && ScanTime(b, t)
  {
    if Visited(b, i, t, cancel) && Slice(b, i, t, cancel) != 0
    then Some(Payment(b.items[i].sponsor, Slice(b, i, t, cancel)))
    else None
  }

  function Lines(b: Book, t: int, cancel: Hash): seq<Option<Payment>>
    requires Ok(b) && ScanTime(b, t)
  {
    seq(|b.items|, i requires 0 <= i < |b.items| => Line(b, i, t, cancel))
  }

  function Hashes(b: Book): seq<Hash> {
    seq(|b.items|, i requires 0 <= i < |b.items| => b.items[i].hash)
  }

  // The payments of a plain scan over all items in the order they were sponsored.
  function Scan(b: Book, t: int, cancel: Hash): map<Hash, Payment>
    requires Ok(b) && ScanTime(b, t)
  {
    Collect(Hashes(b), Lines(b, t, cancel), Identity(|b.items|))
  }
}
