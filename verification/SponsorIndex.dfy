/**
 The index the code keeps with every book: the positions of the items that are not
 exhausted, sorted by the time left to their start.  It is rebuilt from itself after
 every change and lets the scan stop early.
 */
module SponsorIndex {
  import opened Basics
  import opened Collecting
  import opened Sponsorship
  import opened Books

  datatype Indexed = Indexed(book: Book, index: seq<nat>)

  predicate Keeps(b: Book, i: nat)
    requires |b.points| > 0
  {
    i < |b.items| && Active(b, i)
  }

  // The positions of `s` that refreshing keeps, in their order.
  function Kept(b: Book, s: seq<nat>): seq<nat>
    requires |b.points| > 0
  {
    if s == [] then []
    else
      var init := Kept(b, s[..|s| - 1]);
      if Keeps(b, s[|s| - 1]) then init + [s[|s| - 1]] else init
  }

  // Seconds until the item starts, seen from the last time point.
  function Wait(b: Book, i: nat): int
    requires |b.points| > 0 && i < |b.items|
  {
    Max(0, b.items[i].start - b.Last())
  }

  predicate Sorted(b: Book, s: seq<nat>)
    requires |b.points| > 0 && InRange(s, |b.items|)
  {
    forall j, k :: 0 <= j < k < |s| ==> Wait(b, s[j]) <= Wait(b, s[k])
  }

  // The index lists every active item once, the next to start first.
  predicate IndexOk(c: Indexed)
    requires |c.book.points| > 0
  {
    && multiset(c.index) == multiset(Kept(c.book, Identity(|c.book.items|)))
    && InRange(c.index, |c.book.items|)
    && Sorted(c.book, c.index)
  }

  // ----- Refreshing -----

  lemma {:induction false} KeptCount(b: Book, s: seq<nat>, x: nat)
    requires |b.points| > 0
    ensures multiset(Kept(b, s))[x] == if Keeps(b, x) then multiset(s)[x] else 0
  {
    if s == [] {
    } else {
      KeptCount(b, s[..|s| - 1], x);
      assert s == s[..|s| - 1] + [s[|s| - 1]];
    }
  }

  lemma KeptOfPermutation(b: Book, s: seq<nat>, s': seq<nat>)
    requires |b.points| > 0
    requires forall x: nat :: Keeps(b, x) ==> multiset(s)[x] == multiset(s')[x]
    ensures multiset(Kept(b, s)) == multiset(Kept(b, s'))
  {
    forall x: nat ensures multiset(Kept(b, s))[x] == multiset(Kept(b, s'))[x] {
      KeptCount(b, s, x);
      KeptCount(b, s', x);
    }
    assert forall x: nat :: multiset(Kept(b, s))[x] == multiset(Kept(b, s'))[x];
  }

  lemma {:induction false} KeptInRange(b: Book, s: seq<nat>)
    requires |b.points| > 0
    ensures InRange(Kept(b, s), |b.items|)
  {
    if s == [] {
    } else {
      KeptInRange(b, s[..|s| - 1]);
    }
  }

  lemma {:induction false} IdentityCount(n: nat, x: nat)
    ensures multiset(Identity(n))[x] == if x < n then 1 else 0
  {
    if n > 0 {
      IdentityCount(n - 1, x);
      assert Identity(n) == Identity(n - 1) + [n - 1];
    } else {
      assert Identity(n) == [];
    }
  }

  // An index holds exactly the active items.
  lemma IndexMembers(c: Indexed, i: nat)
    requires |c.book.points| > 0 && multiset(c.index) == multiset(Kept(c.book, Identity(|c.book.items|)))
    ensures i in c.index <==> Keeps(c.book, i)
  {
    KeptCount(c.book, Identity(|c.book.items|), i);
    IdentityCount(|c.book.items|, i);
    assert i in c.index <==> multiset(c.index)[i] > 0;
  }

  // Refreshing from a sequence that lists every kept item once gives a right index.
  lemma RefreshFrom(b: Book, s: seq<nat>, index: seq<nat>)
    requires |b.points| > 0
    requires forall x: nat :: Keeps(b, x) ==> multiset(s)[x] == 1
    requires multiset(index) == multiset(Kept(b, s))
    ensures multiset(index) == multiset(Kept(b, Identity(|b.items|)))
  {
    forall x: nat | Keeps(b, x) ensures multiset(s)[x] == multiset(Identity(|b.items|))[x] {
      IdentityCount(|b.items|, x);
    }
    KeptOfPermutation(b, s, Identity(|b.items|));
  }

  // Nothing kept by the new book was missing from the index of the old one.
  lemma RefreshFromIndex(c: Indexed, b: Book, index: seq<nat>)
    requires |c.book.points| > 0 && IndexOk(c) && |b.points| > 0
    requires forall x: nat :: Keeps(b, x) ==> Keeps(c.book, x)
    requires multiset(index) == multiset(Kept(b, c.index))
    ensures multiset(index) == multiset(Kept(b, Identity(|b.items|)))
  {
    forall x: nat | Keeps(b, x) ensures multiset(c.index)[x] == 1 {
      assert Keeps(c.book, x);
      KeptCount(c.book, Identity(|c.book.items|), x);
      IdentityCount(|c.book.items|, x);
    }
    RefreshFrom(b, c.index, index);
  }

  // After a use nothing becomes active again.
  lemma UseOnlyExhausts(b: Book, t: int, x: nat)
    requires Ok(b) && Fresh(b, t) && Keeps(Used(b, t), x)
    ensures Keeps(b, x)
  {
    assert OkItem(b.items[x], |b.points|);
  }

  // A new sponsorship is active and leaves the others as they were.
  lemma SponsorOnlyAdds(c: Indexed, it: Item, x: nat)
    requires Ok(c.book) && IndexOk(c) && Keeps(Sponsored(c.book, it), x)
    ensures multiset(c.index + [|c.book.items|])[x] == 1
  {
    var n := |c.book.items|;
    KeptCount(c.book, Identity(n), x);
    IdentityCount(n, x);
    assert multiset(c.index + [n])[x] == multiset(c.index)[x] + multiset([n])[x];
    if x < n { assert Sponsored(c.book, it).items[x] == c.book.items[x]; assert Keeps(c.book, x); }
  }

  // ----- The code -----

  // How many of the sorted entries do not wait longer than `x`.
  function Position(b: Book, s: seq<nat>, x: nat): (p: nat)
    requires |b.points| > 0 && InRange(s, |b.items|) && x < |b.items| && Sorted(b, s)
    ensures p <= |s|
    ensures forall j :: 0 <= j < p ==> Wait(b, s[j]) <= Wait(b, x)
    ensures forall j :: p <= j < |s| ==> Wait(b, x) < Wait(b, s[j])
  {
    if s == [] || Wait(b, s[|s| - 1]) <= Wait(b, x) then |s| else Position(b, s[..|s| - 1], x)
  }

  lemma InsertKeepsSorted(b: Book, s: seq<nat>, p: nat, x: nat)
    requires |b.points| > 0 && InRange(s, |b.items|) && x < |b.items| && Sorted(b, s) && p <= |s|
    requires forall j :: 0 <= j < p ==> Wait(b, s[j]) <= Wait(b, x)
    requires forall j :: p <= j < |s| ==> Wait(b, x) < Wait(b, s[j])
    ensures InRange(s[..p] + [x] + s[p..], |b.items|) && Sorted(b, s[..p] + [x] + s[p..])
  {
    var r := s[..p] + [x] + s[p..];
    forall j | 0 <= j < |r| ensures r[j] == if j < p then s[j] else if j == p then x else s[j - 1] {}
  }

  lemma InsertAddsOne(s: seq<nat>, p: nat, x: nat)
    requires p <= |s|
    ensures multiset(s[..p] + [x] + s[p..]) == multiset(s) + multiset{x}
  {
    assert s == s[..p] + s[p..];
  }

  // What the library promises of a sort by waiting time; the order of equal waits is free.
  ghost predicate IsSort(sort: (Book, seq<nat>) -> seq<nat>) {
    forall b: Book, arr: seq<nat> {:trigger sort(b, arr)} :: |b.points| > 0 && InRange(arr, |b.items|) ==> SortsOne(b, arr, sort(b, arr))
  }

  ghost predicate SortsOne(b: Book, arr: seq<nat>, sorted: seq<nat>)
    requires |b.points| > 0
  {
    multiset(sorted) == multiset(arr) && InRange(sorted, |b.items|) && Sorted(b, sorted)
  }

  // The sort of the library the code is built with, whichever it is.
  type Sort = sort: (Book, seq<nat>) -> seq<nat> | IsSort(sort) witness Insertion()

  // One such sort: every entry goes behind those that do not wait longer.
  function SortByWait(b: Book, arr: seq<nat>): (sorted: seq<nat>)
    requires |b.points| > 0 && InRange(arr, |b.items|)
    ensures multiset(sorted) == multiset(arr)
    ensures InRange(sorted, |b.items|) && Sorted(b, sorted)
    ensures arr != [] && Wait(b, arr[0]) == 0 ==> sorted != [] && sorted[0] == arr[0]
  {
    if arr == [] then []
    else
      var init, last := SortByWait(b, arr[..|arr| - 1]), arr[|arr| - 1];
      var p := Position(b, init, last);
      assert arr == arr[..|arr| - 1] + [last];
      InsertAddsOne(init, p, last);
      InsertKeepsSorted(b, init, p, last);
      init[..p] + [last] + init[p..]
  }

  function Insertion(): (sort: (Book, seq<nat>) -> seq<nat>)
    ensures IsSort(sort)
  {
    (b: Book, arr: seq<nat>) => if |b.points| > 0 && InRange(arr, |b.items|) then SortByWait(b, arr) else arr
  }

  // The index after refreshing.
  function Refreshed(c: Indexed, sort: Sort): seq<nat>
    requires |c.book.points| > 0
  {
    sort(c.book, Kept(c.book, c.index))
  }

  // Throws (ok is false) when an item claims more earlier points than there are.
  method RefreshIndex(c: Indexed, sort: Sort) returns (ok: bool, c': Indexed)
    requires |c.book.points| > 0
    ensures ok <==> forall j :: 0 <= j < |c.index| && c.index[j] < |c.book.items| ==>
                      c.book.items[c.index[j]].pointsBefore <= |c.book.points|
    ensures c'.book == c.book
    ensures ok ==> c'.index == Refreshed(c, sort)
    ensures ok ==> multiset(c'.index) == multiset(Kept(c.book, c.index))
    ensures ok ==> InRange(c'.index, |c.book.items|) && Sorted(c.book, c'.index)
    ensures !ok ==> c' == c
  {
    var b := c.book;
    var tp := b.Last();
    var arr := [];
    for n := 0 to |c.index|
      invariant forall j :: 0 <= j < n && c.index[j] < |b.items| ==> b.items[c.index[j]].pointsBefore <= |b.points|
      invariant arr == Kept(b, c.index[..n])
    {
      assert c.index[..n + 1][..n] == c.index[..n];
      var i := c.index[n];
      if |b.items| <= i { continue; }
      var item := b.items[i];
      if item.pointsBefore > |b.points| { return false, c; }
      if tp >= item.end && |b.points| > item.pointsBefore { continue; }
      arr := arr + [i];
    }
    assert c.index[..|c.index|] == c.index;
    KeptInRange(b, c.index);
    return true, Indexed(b, sort(b, arr));
  }

  // ----- The scan along the index -----

  // How far the scan goes before it meets an item that starts at `t` or later.
  function Reached(b: Book, t: int, order: seq<nat>): (r: nat)
    requires InRange(order, |b.items|)
    ensures r <= |order|
    ensures forall j :: 0 <= j < r ==> b.items[order[j]].start < t
    ensures r < |order| ==> b.items[order[r]].start >= t
  {
    if order == [] || b.items[order[0]].start >= t then 0
    else
      assert forall j :: 1 <= j < |order| ==> order[j] == order[1..][j - 1];
      1 + Reached(b, t, order[1..])
  }

  // What the scan along `order`, with its early stop, writes down.
  function FastScan(b: Book, t: int, cancel: Hash, order: seq<nat>): map<Hash, Payment>
    requires Ok(b) && ScanTime(b, t) && InRange(order, |b.items|)
  {
    Collect(Hashes(b), Lines(b, t, cancel), order[..Reached(b, t, order)])
  }

  lemma UnreachedStartLater(c: Indexed, t: int, j: nat)
    requires Ok(c.book) && IndexOk(c) && t > c.book.Last()
    requires Reached(c.book, t, c.index) <= j < |c.index|
    ensures c.book.items[c.index[j]].start >= t
  {
    var k := Reached(c.book, t, c.index);
    assert k < j ==> Wait(c.book, c.index[k]) <= Wait(c.book, c.index[j]);
  }

  lemma BreakIsSafe(c: Indexed, t: int, i: nat)
    requires Ok(c.book) && IndexOk(c) && t > c.book.Last() && i in c.index && c.book.items[i].start < t
    ensures i in c.index[..Reached(c.book, t, c.index)]
  {
    var k := Reached(c.book, t, c.index);
    var j :| 0 <= j < |c.index| && c.index[j] == i;
    if j < k { assert c.index[..k][j] == i; } else { UnreachedStartLater(c, t, j); }
  }

  // The scan along the index, stopping early, pays what a plain scan over all items pays.
  lemma FastScanIsPlain(c: Indexed, t: int, cancel: Hash)
    requires Ok(c.book) && IndexOk(c) && t > c.book.Last()
    ensures FastScan(c.book, t, cancel, c.index) == Scan(c.book, t, cancel)
  {
    var b := c.book;
    var order := c.index[..Reached(b, t, c.index)];
    forall i | 0 <= i < |b.items| && Lines(b, t, cancel)[i].Some?
      ensures i in order && i in Identity(|b.items|)
    {
      assert Line(b, i, t, cancel).Some?;
      IndexMembers(c, i);
      BreakIsSafe(c, t, i);
      assert Identity(|b.items|)[i] == i;
    }
    OrderIrrelevant(Hashes(b), Lines(b, t, cancel), order, Identity(|b.items|));
  }

  lemma NothingDue(b: Book, t: int, cancel: Hash, order: seq<nat>)
    requires Ok(b) && ScanTime(b, t) && InRange(order, |b.items|) && Scan(b, t, cancel) == map[]
    ensures FastScan(b, t, cancel, order) == map[]
  {
    forall i | 0 <= i < |b.items| ensures Lines(b, t, cancel)[i].None? {
      CollectsNothing(Hashes(b), Lines(b, t, cancel), i);
    }
    EmptyLines(Hashes(b), Lines(b, t, cancel), order[..Reached(b, t, order)]);
  }

  // ----- The undoing scan, when time had not moved on -----

  // The entries a condition holds for, in their order.
  function Where(s: seq<nat>, p: nat -> bool): (r: seq<nat>)
    ensures forall x <- r :: x in s && p(x)
  {
    if s == [] then []
    else
      var init := Where(s[..|s| - 1], p);
      if p(s[|s| - 1]) then init + [s[|s| - 1]] else init
  }

  lemma {:induction false} WhereHas(s: seq<nat>, p: nat -> bool, x: nat)
    requires x in s && p(x)
    ensures x in Where(s, p)
  {
    var init, last := s[..|s| - 1], s[|s| - 1];
    assert s == init + [last];
    if x in init { WhereHas(init, p, x); }
  }

  lemma {:induction false} WhereSplits(s: seq<nat>, p: nat -> bool, q: nat -> bool)
    requires forall x :: q(x) == !p(x)
    ensures multiset(Where(s, p)) + multiset(Where(s, q)) == multiset(s)
  {
    if s == [] {
    } else {
      var init, last := s[..|s| - 1], s[|s| - 1];
      WhereSplits(init, p, q);
      assert s == init + [last];
    }
  }

  lemma {:induction false} WhereStaysSorted(b: Book, s: seq<nat>, p: nat -> bool)
    requires |b.points| > 0 && InRange(s, |b.items|) && Sorted(b, s)
    ensures InRange(Where(s, p), |b.items|) && Sorted(b, Where(s, p))
    ensures forall x <- Where(s, p) :: Wait(b, x) <= Wait(b, s[|s| - 1])
  {
    if s == [] {
    } else {
      var init, last := s[..|s| - 1], s[|s| - 1];
      if init != [] {
        assert Wait(b, init[|init| - 1]) <= Wait(b, last);
        WhereStaysSorted(b, init, p);
      }
    }
  }

  function StartsBefore(b: Book, t: int): nat -> bool {
    (i: nat) => i < |b.items| && b.items[i].start < t
  }

  function StartsLater(b: Book, t: int): nat -> bool {
    (i: nat) => !StartsBefore(b, t)(i)
  }

  // Whatever starts before `t` first, then the rest.
  function EarlyFirst(b: Book, t: int, s: seq<nat>): seq<nat> {
    Where(s, StartsBefore(b, t)) + Where(s, StartsLater(b, t))
  }

  // What starts before a time not later than the last point does not have to wait.
  lemma NoWait(b: Book, t: int, x: nat)
    requires |b.points| > 0 && t <= b.Last() && StartsBefore(b, t)(x)
    ensures x < |b.items| && Wait(b, x) == 0
  {}

  lemma SortedJoin(b: Book, early: seq<nat>, late: seq<nat>)
    requires |b.points| > 0 && InRange(late, |b.items|) && Sorted(b, late)
    requires forall x <- early :: x < |b.items| && Wait(b, x) == 0
    ensures InRange(early + late, |b.items|) && Sorted(b, early + late)
  {
    var all := early + late;
    forall j | 0 <= j < |all| ensures all[j] < |b.items| && (j < |early| ==> Wait(b, all[j]) == 0) {
      if j < |early| { assert early[j] in early; }
    }
  }

  lemma EarlyFirstSorts(b: Book, t: int, s: seq<nat>)
    requires |b.points| > 0 && InRange(s, |b.items|) && Sorted(b, s) && t <= b.Last()
    ensures SortsOne(b, s, EarlyFirst(b, t, s))
  {
    var p, q := StartsBefore(b, t), StartsLater(b, t);
    WhereSplits(s, p, q);
    WhereStaysSorted(b, s, q);
    forall x | x in Where(s, p) ensures x < |b.items| && Wait(b, x) == 0 { NoWait(b, t, x); }
    SortedJoin(b, Where(s, p), Where(s, q));
  }

  lemma EarlyFirstIsIndex(c: Indexed, t: int)
    requires |c.book.points| > 0 && IndexOk(c) && t <= c.book.Last()
    ensures IndexOk(Indexed(c.book, EarlyFirst(c.book, t, c.index)))
  {
    EarlyFirstSorts(c.book, t, c.index);
  }

  lemma ReachedIs(b: Book, t: int, order: seq<nat>, k: nat)
    requires InRange(order, |b.items|) && k <= |order|
    requires forall j :: 0 <= j < k ==> b.items[order[j]].start < t
    requires k < |order| ==> b.items[order[k]].start >= t
    ensures Reached(b, t, order) == k
  {}

  lemma ReachedEarly(b: Book, t: int, s: seq<nat>)
    requires InRange(EarlyFirst(b, t, s), |b.items|)
    ensures EarlyFirst(b, t, s)[..Reached(b, t, EarlyFirst(b, t, s))] == Where(s, StartsBefore(b, t))
  {
    var early, late, all := Where(s, StartsBefore(b, t)), Where(s, StartsLater(b, t)), EarlyFirst(b, t, s);
    forall j | 0 <= j < |early| ensures b.items[all[j]].start < t { assert early[j] in early; }
    if late != [] { assert late[0] in late && all[|early|] == late[0]; }
    ReachedIs(b, t, all, |early|);
  }

  // Listed in this order of ties, the scan reports everything that is due.
  lemma WorstOrder(c: Indexed, t: int)
    requires Ok(c.book) && ScanTime(c.book, t) && IndexOk(c) && t <= c.book.Last()
    ensures IndexOk(Indexed(c.book, EarlyFirst(c.book, t, c.index)))
    ensures FastScan(c.book, t, "", EarlyFirst(c.book, t, c.index)) == Scan(c.book, t, "")
  {
    var b, early := c.book, Where(c.index, StartsBefore(c.book, t));
    EarlyFirstIsIndex(c, t);
    ReachedEarly(b, t, c.index);
    forall i | 0 <= i < |b.items| && Lines(b, t, "")[i].Some? ensures i in early && i in Identity(|b.items|) {
      assert Line(b, i, t, "").Some?;
      IndexMembers(c, i);
      WhereHas(c.index, StartsBefore(b, t), i);
      assert Identity(|b.items|)[i] == i;
    }
    EarlyScan(b, t, c.index);
  }

  lemma EarlyScan(b: Book, t: int, s: seq<nat>)
    requires Ok(b) && ScanTime(b, t) && InRange(EarlyFirst(b, t, s), |b.items|)
    requires forall i :: 0 <= i < |b.items| && Lines(b, t, "")[i].Some? ==> i in Where(s, StartsBefore(b, t)) && i in Identity(|b.items|)
    ensures FastScan(b, t, "", EarlyFirst(b, t, s)) == Scan(b, t, "")
  {
    var early := Where(s, StartsBefore(b, t));
    ReachedEarly(b, t, s);
    assert FastScan(b, t, "", EarlyFirst(b, t, s)) == Collect(Hashes(b), Lines(b, t, ""), early);
    OrderIrrelevant(Hashes(b), Lines(b, t, ""), early, Identity(|b.items|));
  }

  // Undoing a use reports the payments of that use, whatever order equal waiting times are
  // sorted in, exactly when the use came after the last point or nothing was due.
  lemma UndoReportsTheUse(c: Indexed, t: int)
    requires Ok(c.book) && Fresh(c.book, t) && IndexOk(c)
    ensures (forall order: seq<nat> :: IndexOk(Indexed(c.book, order)) ==>
               FastScan(c.book, t, "", order) == UsePays(c.book, t))
            <==> t > c.book.Last() || Scan(c.book, t, "") == map[]
  {
    var b := c.book;
    if t > b.Last() {
      forall order: seq<nat> | IndexOk(Indexed(b, order)) ensures FastScan(b, t, "", order) == UsePays(b, t) {
        FastScanIsPlain(Indexed(b, order), t, "");
      }
    } else if Scan(b, t, "") == map[] {
      forall order: seq<nat> | IndexOk(Indexed(b, order)) ensures FastScan(b, t, "", order) == UsePays(b, t) {
        NothingDue(b, t, "", order);
      }
    } else {
      WorstOrder(c, t);
    }
  }

  // ----- With the sort of a given library -----

  // The index the code builds from all positions before it undoes a use.
  function Rebuilt(b: Book, sort: Sort): (index: seq<nat>)
    requires |b.points| > 0
    ensures IndexOk(Indexed(b, index))
  {
    KeptInRange(b, Identity(|b.items|));
    Refreshed(Indexed(b, Identity(|b.items|)), sort)
  }

  // What undoing a use of the book reports: a scan that does not ask whether time had moved on.
  function UndoPays(b: Book, t: int, sort: Sort): map<Hash, Payment>
    requires Ok(b) && ScanTime(b, t)
  {
    FastScan(b, t, "", Rebuilt(b, sort))
  }

  // The order of ties matters only for a use that was early.
  lemma LateUndoPays(b: Book, t: int, sort: Sort)
    requires Ok(b) && t > b.Last()
    ensures UndoPays(b, t, sort) == UsePays(b, t)
  {
    FastScanIsPlain(Indexed(b, Rebuilt(b, sort)), t, "");
  }

  // Equal waits stay in the order they were in.
  ghost predicate Stable(sort: Sort) {
    forall b: Book, arr: seq<nat>, wait: int :: |b.points| > 0 && InRange(arr, |b.items|) ==>
      Where(sort(b, arr), Waits(b, wait)) == Where(arr, Waits(b, wait))
  }

  function Waits(b: Book, wait: int): nat -> bool {
    (i: nat) => |b.points| > 0 && i < |b.items| && Wait(b, i) == wait
  }

  // Less than stable: an entry that comes first and does not wait stays first.
  ghost predicate KeepsFirst(sort: Sort) {
    forall b: Book, arr: seq<nat> {:trigger sort(b, arr)} :: |b.points| > 0 && InRange(arr, |b.items|) && arr != [] && Wait(b, arr[0]) == 0 ==>
      sort(b, arr) != [] && sort(b, arr)[0] == arr[0]
  }

  lemma {:induction false} WhereFirst(s: seq<nat>, p: nat -> bool)
    requires s != [] && p(s[0])
    ensures Where(s, p) != [] && Where(s, p)[0] == s[0]
  {
    if |s| == 1 {
      assert s[..0] == [];
    } else {
      WhereFirst(s[..|s| - 1], p);
    }
  }

  lemma StableKeepsFirst(sort: Sort)
    requires Stable(sort)
    ensures KeepsFirst(sort)
  {
    forall b: Book, arr: seq<nat> | |b.points| > 0 && InRange(arr, |b.items|) && arr != [] && Wait(b, arr[0]) == 0
      ensures sort(b, arr) != [] && sort(b, arr)[0] == arr[0]
    {
      var sorted, p := sort(b, arr), Waits(b, 0);
      assert SortsOne(b, arr, sorted);
      assert arr[0] in multiset(arr) && arr[0] in multiset(sorted);
      var k :| 0 <= k < |sorted| && sorted[k] == arr[0];
      assert Wait(b, sorted[0]) <= Wait(b, sorted[k]);
      assert Where(sorted, p) == Where(arr, p);
      WhereFirst(arr, p);
      WhereFirst(sorted, p);
    }
  }

  lemma {:induction false} KeptFirst(b: Book, s: seq<nat>)
    requires |b.points| > 0 && s != [] && Keeps(b, s[0])
    ensures Kept(b, s) != [] && Kept(b, s)[0] == s[0]
  {
    if |s| == 1 {
      assert Kept(b, s[..0]) == [];
    } else {
      KeptFirst(b, s[..|s| - 1]);
    }
  }

  // The first sponsorship of a unit starts at its first time point; listed first, it ends the
  // undoing scan of every early use at once.
  lemma EarlyUndoPaysNothing(b: Book, t: int, sort: Sort)
    requires Ok(b) && Fresh(b, t) && t <= b.Last() && KeepsFirst(sort)
    ensures UndoPays(b, t, sort) == map[]
  {
    var all := Identity(|b.items|);
    assert |b.points| == 1 && OkItem(b.items[0], 1) && OpensWith(b, 0) && all[0] == 0;
    KeptFirst(b, all);
    KeptInRange(b, all);
    var index := Rebuilt(b, sort);
    assert Wait(b, 0) == 0 && index[0] == 0;
    ReachedIs(b, t, index, 0);
    assert index[..0] == [];
  }

  lemma UndoReports(b: Book, t: int, sort: Sort)
    requires Ok(b) && Fresh(b, t)
    ensures t > b.Last() || KeepsFirst(sort) ==> UndoPays(b, t, sort) == UsePays(b, t)
  {
    if t > b.Last() { LateUndoPays(b, t, sort); } else if KeepsFirst(sort) { EarlyUndoPaysNothing(b, t, sort); }
  }

  // The sort that lists, among those that need not wait, what starts before `t` first.
  function WorstSort(t: int): (sort: Sort) {
    EarlyIsSort(t);
    EarlySort(t)
  }

  function EarlySort(t: int): (Book, seq<nat>) -> seq<nat> {
    (b: Book, arr: seq<nat>) => EarlyOrder(b, t, arr)
  }

  function EarlyOrder(b: Book, t: int, arr: seq<nat>): seq<nat> {
    if |b.points| > 0 && InRange(arr, |b.items|) then
      if t <= b.Last() then EarlyFirst(b, t, SortByWait(b, arr)) else SortByWait(b, arr)
    else arr
  }

  lemma EarlyOrderSorts(b: Book, t: int, arr: seq<nat>)
    requires |b.points| > 0 && InRange(arr, |b.items|)
    ensures SortsOne(b, arr, EarlyOrder(b, t, arr))
  {
    var sorted := SortByWait(b, arr);
    if t <= b.Last() { EarlyFirstSorts(b, t, sorted); }
  }

  lemma EarlyIsSort(t: int)
    ensures IsSort(EarlySort(t))
  {
    var sort := EarlySort(t);
    forall b: Book, arr: seq<nat> | |b.points| > 0 && InRange(arr, |b.items|) ensures SortsOne(b, arr, sort(b, arr)) {
      EarlyOrderSorts(b, t, arr);
    }
  }

  lemma WorstRebuilt(b: Book, t: int)
    requires |b.points| > 0 && t <= b.Last()
    ensures Rebuilt(b, WorstSort(t)) == EarlyFirst(b, t, Rebuilt(b, Insertion()))
  {
    var all := Identity(|b.items|);
    KeptInRange(b, all);
    var kept := Kept(b, all);
    assert Rebuilt(b, Insertion()) == SortByWait(b, kept);
    assert Rebuilt(b, WorstSort(t)) == EarlyOrder(b, t, kept);
  }

  lemma WorstUndoPays(b: Book, t: int)
    requires Ok(b) && ScanTime(b, t) && t <= b.Last()
    ensures UndoPays(b, t, WorstSort(t)) == Scan(b, t, "")
  {
    WorstRebuilt(b, t);
    WorstOrder(Indexed(b, Rebuilt(b, Insertion())), t);
  }

  // Undoing a use reports its payments with every library exactly when the use was late or
  // nothing was due; with a library that keeps the first first, always.
  lemma EveryUndoReportsTheUse(b: Book, t: int)
    requires Ok(b) && Fresh(b, t)
    ensures (forall sort: Sort :: UndoPays(b, t, sort) == UsePays(b, t)) <==> t > b.Last() || Scan(b, t, "") == map[]
    ensures forall sort: Sort :: KeepsFirst(sort) ==> UndoPays(b, t, sort) == UsePays(b, t)
  {
    forall sort: Sort | t > b.Last() || Scan(b, t, "") == map[] || KeepsFirst(sort) ensures UndoPays(b, t, sort) == UsePays(b, t) {
      UndoReports(b, t, sort);
      if t <= b.Last() && !KeepsFirst(sort) { NothingDue(b, t, "", Rebuilt(b, sort)); }
    }
    if t <= b.Last() { WorstUndoPays(b, t); }
  }
}
