/** The document store as the code keeps it: tables changed in place, books with an index. */
module DocumentStore {
  import opened Basics
  import opened Collecting
  import opened Sponsorship
  import opened Books
  import opened SponsorIndex
  import opened DocumentValues

  datatype Report = Pays(pays: map<Hash, Payment>) | Threw(why: Failure)

  predicate OkUnit(c: Indexed) {
    Ok(c.book) && IndexOk(c)
  }

  lemma IndexHasNoDuplicates(c: Indexed, j: nat, k: nat)
    requires OkUnit(c) && j < k < |c.index|
    ensures c.index[j] != c.index[k]
  {
    var x := c.index[k];
    KeptCount(c.book, Identity(|c.book.items|), x);
    IdentityCount(|c.book.items|, x);
    assert c.index == c.index[..k] + [x] + c.index[k + 1..];
    assert multiset(c.index)[x] == multiset(c.index[..k])[x] + 1 + multiset(c.index[k + 1..])[x];
    assert multiset(c.index[..k])[x] == 0;
    assert c.index[..k][j] in multiset(c.index[..k]);
  }

  lemma NotYetPaid(c: Indexed, t: int, k: nat)
    requires OkUnit(c) && ScanTime(c.book, t) && k < |c.index|
    ensures c.book.items[c.index[k]].hash !in Collect(Hashes(c.book), Lines(c.book, t, ""), c.index[..k])
  {
    var m := Collect(Hashes(c.book), Lines(c.book, t, ""), c.index[..k]);
    CollectHas(Hashes(c.book), Lines(c.book, t, ""), c.index[..k]);
    forall h | h in m ensures h != c.book.items[c.index[k]].hash {
      var i :| i in c.index[..k] && Hashes(c.book)[i] == h;
      var j :| 0 <= j < k && c.index[..k][j] == i;
      IndexHasNoDuplicates(c, j, k);
    }
  }

  // The slice of one item, with the code's running variables.
  method ComputePart(b: Book, item: Item, t: int, hash: Hash) returns (part: Amount)
    requires |b.points| > 0 && item.start < item.end && PartStart(b, item) <= PartEnd(item, t, hash)
    ensures part == Part(item, PartStart(b, item), PartEnd(item, t, hash))
  {
    var partStart := Max(b.Last(), item.start);
    var partEnd := Min(t, item.end);
    if hash != "" { partEnd := item.end; }
    if item.pointsBefore == |b.points| { partStart := item.start; }
    assert partStart == PartStart(b, item) && partEnd == PartEnd(item, t, hash);
    part := PartOver(item, partStart, partEnd);
  }

  // The rate times the seconds; the rest comes with the last second.
  method PartOver(item: Item, partStart: int, partEnd: int) returns (part: Amount)
    requires item.start < item.end && partStart <= partEnd
    ensures part == Part(item, partStart, partEnd)
  {
    var duration := item.end - item.start;
    part := item.amount / duration * (partEnd - partStart);
    if partEnd == item.end { part := part + item.amount % duration; }
  }

  // The scan for a use, along the index.
  method ScanUse(c: Indexed, t: int) returns (ok: bool, result: map<Hash, Payment>)
    requires OkUnit(c) && ScanTime(c.book, t)
    ensures ok && result == FastScan(c.book, t, "", c.index)
  {
    result := map[];
    var b := c.book;
    var k := 0;
    while k < |c.index|
      invariant 0 <= k <= |c.index|
      invariant forall j :: 0 <= j < k ==> b.items[c.index[j]].start < t
      invariant result == Collect(Hashes(b), Lines(b, t, ""), c.index[..k])
    {
      var i := c.index[k];
      var item := b.items[i];
      if item.start >= t { break; }
      CollectedNext(c, t, k);
      k := k + 1;
      if item.cancelled { continue; }
      var part := ComputePart(b, item, t, "");
      if part == 0 { continue; }
      if item.hash in result { return false, result; }
      result := result[item.hash := Payment(item.sponsor, part)];
    }
    ReachedIs(b, t, c.index, k);
    return true, result;
  }

  // What the next position of the index adds to the result.
  lemma CollectedNext(c: Indexed, t: int, k: nat)
    requires OkUnit(c) && ScanTime(c.book, t) && k < |c.index| && c.book.items[c.index[k]].start < t
    ensures var b, i := c.book, c.index[k];
            var m := Collect(Hashes(b), Lines(b, t, ""), c.index[..k]);
            && b.items[i].start < b.items[i].end
            && (!b.items[i].cancelled ==> PartStart(b, b.items[i]) <= PartEnd(b.items[i], t, ""))
            && b.items[i].hash !in m
            && Collect(Hashes(b), Lines(b, t, ""), c.index[..k + 1]) ==
               if b.items[i].cancelled then m
               else
                 var part := Part(b.items[i], PartStart(b, b.items[i]), PartEnd(b.items[i], t, ""));
                 if part == 0 then m else m[b.items[i].hash := Payment(b.items[i].sponsor, part)]
  {
    var b, i := c.book, c.index[k];
    assert c.index[..k + 1][..k] == c.index[..k];
    IndexMembers(c, i);
    NotYetPaid(c, t, k);
    assert Lines(b, t, "")[i] == Line(b, i, t, "") && Hashes(b)[i] == b.items[i].hash;
    if !b.items[i].cancelled {
      assert Visited(b, i, t, "");
      SliceIsForward(b, i, t, "");
    }
  }

  // The scan for a cancellation; hashes are unique, so it may stop at the first match.
  method ScanCancel(c: Indexed, t: int, hash: Hash) returns (found: Option<nat>, part: Amount)
    requires OkUnit(c) && t > c.book.Last() && hash != ""
    ensures found.None? ==> hash !in CancelPays(c.book, t, hash)
    ensures found.Some? ==>
              && found.value < |c.book.items| && c.book.items[found.value].hash == hash
              && CancelPays(c.book, t, hash) == map[hash := Payment(c.book.items[found.value].sponsor, part)]
  {
    var b := c.book;
    var k := 0;
    while k < |c.index|
      invariant 0 <= k <= |c.index|
      invariant forall j :: 0 <= j < k ==> b.items[c.index[j]].start < t && Line(b, c.index[j], t, hash).None?
    {
      var i := c.index[k];
      var item := b.items[i];
      if item.start >= t { break; }
      k := k + 1;
      if item.hash != hash { continue; }
      IndexMembers(c, i);
      SliceIsForward(b, i, t, hash);
      part := ComputePart(b, item, t, hash);
      if part == 0 { continue; }
      FoundIsAll(c, t, hash, i, part);
      return Some(i), part;
    }
    NotFound(c, t, hash, k);
    return None, 0;
  }

  lemma NotFound(c: Indexed, t: int, hash: Hash, k: nat)
    requires OkUnit(c) && t > c.book.Last() && hash != "" && k <= |c.index|
    requires forall j :: 0 <= j < k ==> c.book.items[c.index[j]].start < t && Line(c.book, c.index[j], t, hash).None?
    requires k < |c.index| ==> c.book.items[c.index[k]].start >= t
    ensures hash !in CancelPays(c.book, t, hash)
  {
    var b := c.book;
    FastScanIsPlain(c, t, hash);
    ReachedIs(b, t, c.index, k);
    CollectHas(Hashes(b), Lines(b, t, hash), c.index[..k]);
    forall i | i in c.index[..k] ensures Lines(b, t, hash)[i].None? {
      var j :| 0 <= j < k && c.index[..k][j] == i;
    }
  }

  lemma FoundIsAll(c: Indexed, t: int, hash: Hash, i: nat, part: Amount)
    requires OkUnit(c) && t > c.book.Last() && hash != "" && i < |c.book.items| && c.book.items[i].hash == hash
    requires Line(c.book, i, t, hash) == Some(Payment(c.book.items[i].sponsor, part))
    ensures CancelPays(c.book, t, hash) == map[hash := Payment(c.book.items[i].sponsor, part)]
  {
    var b := c.book;
    CancelPaysOne(b, t, hash);
    CollectHas(Hashes(b), Lines(b, t, hash), Identity(|b.items|));
    assert Identity(|b.items|)[i] == i && Lines(b, t, hash)[i] == Line(b, i, t, hash) && Hashes(b)[i] == hash;
  }

  // Using a unit: pay, record the time, refresh.
  method UseIndexed(c: Indexed, t: int, sort: Sort) returns (ok: bool, c': Indexed, pays: map<Hash, Payment>)
    requires OkUnit(c) && Fresh(c.book, t)
    ensures ok && OkUnit(c') && c'.book == Used(c.book, t) && pays == UsePays(c.book, t)
  {
    pays := map[];
    if t > c.book.Last() {
      ok, pays := ScanUse(c, t);
      FastScanIsPlain(c, t, "");
      if !ok { return false, c, pays; }
    }
    var b' := c.book.(points := c.book.points + [t]);
    assert b' == Used(c.book, t);
    UsedIsOk(c.book, t);
    RefreshWillNotFail(b', c.index);
    ok, c' := RefreshIndex(Indexed(b', c.index), sort);
    UsedIndex(c, t, c');
  }

  lemma RefreshWillNotFail(b: Book, index: seq<nat>)
    requires Ok(b)
    ensures forall j :: 0 <= j < |index| && index[j] < |b.items| ==> b.items[index[j]].pointsBefore <= |b.points|
  {
    forall j | 0 <= j < |index| && index[j] < |b.items| ensures b.items[index[j]].pointsBefore <= |b.points| {
      assert OkItem(b.items[index[j]], |b.points|);
    }
  }

  lemma UsedIndex(c: Indexed, t: int, c': Indexed)
    requires OkUnit(c) && Fresh(c.book, t) && c'.book == Used(c.book, t)
    requires multiset(c'.index) == multiset(Kept(c'.book, c.index))
    requires InRange(c'.index, |c'.book.items|) && Sorted(c'.book, c'.index)
    ensures IndexOk(c')
  {
    forall x: nat | Keeps(c'.book, x) ensures Keeps(c.book, x) { UseOnlyExhausts(c.book, t, x); }
    RefreshFromIndex(c, c'.book, c'.index);
  }

  // Taking the use back: drop the last point, rebuild the index from all items, scan again.
  method UnuseIndexed(c: Indexed, t: int, sort: Sort) returns (ok: bool, c': Indexed, pays: map<Hash, Payment>)
    requires OkUnit(c) && t == c.book.Last()
    ensures ok <==> CanUnuse(c.book)
    ensures ok ==> OkUnit(c') && c'.book == Unused(c.book) && ScanTime(c'.book, t) && pays == UndoPays(c'.book, t, sort)
  {
    var b' := c.book.(points := c.book.points[..|c.book.points| - 1]);
    pays := map[];
    if |b'.points| == 0 { return false, c, pays; }
    var all := Identity(|b'.items|);
    ok, c' := RefreshIndex(Indexed(b', all), sort);
    assert ok <==> CanUnuse(c.book) by { RefreshTests(b'); }
    if !ok { return false, c, pays; }
    UnusedIsOk(c.book);
    assert c'.index == Rebuilt(b', sort);
    ok, pays := ScanUse(c', t);
  }

  lemma RefreshTests(b: Book)
    ensures (forall j :: 0 <= j < |Identity(|b.items|)| && Identity(|b.items|)[j] < |b.items| ==>
               b.items[Identity(|b.items|)[j]].pointsBefore <= |b.points|)
            <==> forall i :: 0 <= i < |b.items| ==> b.items[i].pointsBefore <= |b.points|
  {
    var all := Identity(|b.items|);
    if forall j :: 0 <= j < |all| && all[j] < |b.items| ==> b.items[all[j]].pointsBefore <= |b.points| {
      forall i | 0 <= i < |b.items| ensures b.items[i].pointsBefore <= |b.points| { assert all[i] == i; }
    }
  }

  // Flags do not matter to the index.
  lemma {:induction false} FlagsKeepKept(b: Book, b': Book, s: seq<nat>)
    requires |b.points| > 0 && b.points == b'.points && SameItems(b, b')
    ensures Kept(b, s) == Kept(b', s)
  {
    if s == [] {
    } else {
      FlagsKeepKept(b, b', s[..|s| - 1]);
      var i := s[|s| - 1];
      if i < |b.items| { assert b'.items[i].end == b.items[i].end && b'.items[i].pointsBefore == b.items[i].pointsBefore; }
    }
  }

  lemma FlagsKeepIndex(c: Indexed, b': Book)
    requires |c.book.points| > 0 && IndexOk(c) && c.book.points == b'.points && SameItems(c.book, b')
    ensures IndexOk(Indexed(b', c.index))
  {
    FlagsKeepKept(c.book, b', Identity(|c.book.items|));
    forall i: nat | i < |b'.items| ensures Wait(b', i) == Wait(c.book, i) {
      assert b'.items[i].(cancelled := false) == c.book.items[i].(cancelled := false);
    }
  }

  function Flagged(b: Book, i: nat, value: bool): Book
    requires i < |b.items|
  {
    b.(items := b.items[i := b.items[i].(cancelled := value)])
  }

  // Only the found item is flagged.
  lemma FlaggedIsCancelled(b: Book, t: int, hash: Hash, i: nat, value: bool)
    requires Ok(b) && t > b.Last() && hash != "" && i < |b.items| && b.items[i].hash == hash
    requires hash in CancelPays(b, t, hash)
    ensures Cancelled(b, t, hash, value) == Flagged(b, i, value)
    ensures IsCancelled(b, hash) <==> b.items[i].cancelled
    ensures Ok(Flagged(b, i, value)) && Flagged(b, i, value).points == b.points && SameItems(b, Flagged(b, i, value))
  {
    var k := FindItem(b, t, hash);
    assert k == i;
    MarkedIsOk(b, t, hash, value);
    var m := Marked(b, t, hash, value);
    forall j | 0 <= j < |b.items| ensures m.items[j] == Flagged(b, i, value).items[j] {
      if j != i { assert b.items[j].hash != hash; }
    }
    assert m.items == Flagged(b, i, value).items;
  }

  // Appending a sponsorship to a book, or starting a book with it.
  method SponsorIndexed(c: Indexed, it: Item, sort: Sort) returns (ok: bool, c': Indexed)
    requires OkUnit(c) && Ok(Sponsored(c.book, it))
    ensures ok && OkUnit(c') && c'.book == Sponsored(c.book, it)
  {
    var n := |c.book.items|;
    var b' := c.book.(items := c.book.items + [it.(pointsBefore := |c.book.points|, cancelled := false)]);
    RefreshWillNotFail(b', c.index + [n]);
    ok, c' := RefreshIndex(Indexed(b', c.index + [n]), sort);
    forall x: nat | Keeps(b', x) ensures multiset(c.index + [n])[x] == 1 { SponsorOnlyAdds(c, it, x); }
    RefreshFrom(b', c.index + [n], c'.index);
  }

  method OpenIndexed(it: Item, sort: Sort) returns (ok: bool, c: Indexed)
    requires Ok(Opened(it))
    ensures ok && OkUnit(c) && c.book == Opened(it)
  {
    var b := Book([it.(pointsBefore := 1, cancelled := false)], [it.start]);
    RefreshWillNotFail(b, [0]);
    ok, c := RefreshIndex(Indexed(b, [0]), sort);
    assert multiset([0 as nat])[0] == 1;
    RefreshFrom(b, [0], c.index);
  }

  // Dropping the last sponsorship, which is not the only one.
  method UnsponsorIndexed(c: Indexed, sort: Sort) returns (ok: bool, c': Indexed)
    requires OkUnit(c) && |c.book.items| > 1
    ensures ok && OkUnit(c') && c'.book == WithoutLast(c.book)
  {
    var b' := c.book.(items := c.book.items[..|c.book.items| - 1]);
    FewerIsOk(c.book);
    RefreshWillNotFail(b', c.index);
    ok, c' := RefreshIndex(Indexed(b', c.index), sort);
    FewerIndex(c, c');
  }

  lemma FewerIsOk(b: Book)
    requires Ok(b) && |b.items| > 1
    ensures Ok(WithoutLast(b)) && forall x: nat :: Keeps(WithoutLast(b), x) ==> Keeps(b, x)
  {
    var b' := WithoutLast(b);
    assert OpensWith(b, 0);
    forall i | 0 <= i < |b'.items| ensures OkItem(b'.items[i], |b'.points|) { assert OkItem(b.items[i], |b.points|); }
  }

  lemma FewerIndex(c: Indexed, c': Indexed)
    requires OkUnit(c) && |c.book.items| > 1 && c'.book == WithoutLast(c.book)
    requires multiset(c'.index) == multiset(Kept(c'.book, c.index))
    requires InRange(c'.index, |c'.book.items|) && Sorted(c'.book, c'.index)
    ensures IndexOk(c')
  {
    FewerIsOk(c.book);
    RefreshFromIndex(c, c'.book, c'.index);
  }

  function BooksOf(units: map<Uri, Indexed>): map<Uri, Book> {
    map uri | uri in units :: units[uri].book
  }

  /** The tables of the store that sponsorships and storage updates work on. */
  class Documents {
    const sort: Sort
    var units: map<Uri, Indexed>
    var expiring: Expirations
    var blockOf: map<Hash, nat>
    var holders: map<Uri, set<Address>>

    constructor (sort: Sort)
      ensures Value() == Docs(map[], map[], map[], map[]) && Indexes() && this.sort == sort
    {
      this.sort := sort;
      units, expiring, blockOf, holders := map[], map[], map[], map[];
      new;
      assert BooksOf(units) == map[];
    }

    ghost function Value(): Docs
      reads this
    {
      Docs(BooksOf(units), expiring, blockOf, holders)
    }

    // Every book is well formed and its index is right.
    ghost predicate Indexes()
      reads this
    {
      forall uri <- units :: OkUnit(units[uri])
    }

    lemma SetUnit(uri: Uri, c: Indexed)
      ensures BooksOf(units[uri := c]) == Value().books[uri := c.book]
    {}

    method PutUnit(uri: Uri, c: Indexed)
      requires Indexes() && OkUnit(c)
      modifies this`units
      ensures Indexes() && Value() == WithBook(old(Value()), uri, c.book) && units == old(units)[uri := c]
    {
      SetUnit(uri, c);
      units := units[uri := c];
    }

    method UseUnit(uri: Uri, t: int) returns (r: Report)
      requires Indexes() && uri in units && Fresh(units[uri].book, t)
      modifies this`units
      ensures Indexes() && r.Pays?
      ensures UseForward(old(Value()), uri, t) == Done(Value(), r.pays)
    {
      var ok, c', pays := UseIndexed(units[uri], t, sort);
      PutUnit(uri, c');
      return Pays(pays);
    }

    method UnuseUnit(uri: Uri, t: int) returns (r: Report)
      requires Indexes() && uri in units
      modifies this`units
      ensures match UseBackward(old(Value()), uri, t, sort)
              case Done(docs, pays) => r == Pays(pays) && Value() == docs && Indexes()
              case Failed(why) => r == Threw(why)
    {
      var c := units[uri];
      if t != c.book.Last() { return Pays(map[]); }
      var ok, c', pays := UnuseIndexed(c, t, sort);
      if !ok { return Threw(Inconsistent); }
      PutUnit(uri, c');
      return Pays(pays);
    }

    // Sets the flag of item `i` and, for a manual cancellation, the amount in its entry.
    method WriteCancel(uri: Uri, t: int, hash: Hash, i: nat, value: bool, manual: Option<Amount>)
      requires Indexes() && uri in units && hash != "" && t > units[uri].book.Last()
      requires i < |units[uri].book.items| && units[uri].book.items[i].hash == hash
      requires hash in CancelPays(units[uri].book, t, hash) && HasExpiry(Value(), hash)
      modifies this`units, this`expiring
      ensures Indexes()
      ensures Value() ==
              var d' := WithBook(old(Value()), uri, Cancelled(old(units[uri].book), t, hash, value));
              if manual.None? then d' else WithManual(d', hash, manual.value)
    {
      var c := units[uri];
      FlaggedIsCancelled(c.book, t, hash, i, value);
      var c' := Indexed(Flagged(c.book, i, value), c.index);
      FlagsKeepIndex(c, c'.book);
      SetUnit(uri, c');
      units := units[uri := c'];
      if manual.Some? {
        var block := blockOf[hash];
        expiring := expiring[block := expiring[block][hash := expiring[block][hash].(manuallyCancelled := manual.value)]];
      }
    }

    // Carries a cancellation of the found item out, or undoes it.
    method CancelItem(uri: Uri, t: int, dir: Direction, hash: Hash, account: Address, pretend: bool, i: nat, part: Amount) returns (r: Report)
      requires Indexes() && uri in units && hash != "" && t > units[uri].book.Last() && HasExpiry(Value(), hash)
      requires i < |units[uri].book.items| && units[uri].book.items[i].hash == hash
      requires CancelPays(units[uri].book, t, hash) == map[hash := Payment(units[uri].book.items[i].sponsor, part)]
      requires account == "" || units[uri].book.items[i].sponsor == account
      modifies this`units, this`expiring
      ensures match Cancelling(old(Value()), uri, t, dir, hash, account, pretend)
              case Done(docs, pays) => r == Pays(pays) && Value() == docs && Indexes()
              case Failed(why) => r == Threw(why)
    {
      var item := units[uri].book.items[i];
      FlaggedIsCancelled(units[uri].book, t, hash, i, dir.Forward?);
      var result := map[hash := Payment(item.sponsor, part)];
      var entry := expiring[blockOf[hash]][hash];
      if dir.Forward? {
        if item.cancelled { return if pretend then Pays(map[]) else Threw(AlreadyCancelled); }
        if entry.manuallyCancelled != 0 { return Threw(Inconsistent); }
        if pretend { return Pays(result); }
        if account != "" { entry := entry.(manuallyCancelled := part); }
      } else {
        if !item.cancelled || (account != "") != (entry.manuallyCancelled != 0) { return Threw(Inconsistent); }
        if account != "" { entry := entry.(manuallyCancelled := 0); }
      }
      WriteCancel(uri, t, hash, i, dir.Forward?, if account == "" then None else Some(entry.manuallyCancelled));
      return Pays(result);
    }

    // The mode with a hash: give back what is left of one sponsorship, or undo that.
    // `account` is empty when the expiration does it; a trial (`pretend`) changes nothing.
    method CancelUnit(uri: Uri, t: int, dir: Direction, hash: Hash, account: Address, pretend: bool) returns (r: Report)
      requires Indexes() && uri in units && hash != ""
      modifies this`units, this`expiring
      ensures match Cancelling(old(Value()), uri, t, dir, hash, account, pretend)
              case Done(docs, pays) => r == Pays(pays) && Value() == docs && Indexes()
              case Failed(why) => r == Threw(why)
    {
      var c := units[uri];
      if t <= c.book.Last() { return Pays(map[]); }
      var found, part := ScanCancel(c, t, hash);
      if found.None? { return Pays(map[]); }
      if account != "" && c.book.items[found.value].sponsor != account {
        return if pretend then Pays(map[]) else Threw(NotTheSponsor);
      }
      if hash !in blockOf || blockOf[hash] !in expiring || hash !in expiring[blockOf[hash]] { return Threw(Inconsistent); }
      r := CancelItem(uri, t, dir, hash, account, pretend, found.value, part);
    }

    method SetUsed(chain: Chain, uri: Uri, block: nat, dir: Direction, hash: Hash, account: Address, pretend: bool) returns (r: Report)
      requires Indexes()
      requires hash == "" && dir.Forward? && uri in units ==> Fresh(units[uri].book, chain.TimeOf(block))
      requires dir.Backward? ==> dir.sort == sort
      modifies this`units, this`expiring
      ensures match SetUsedAt(old(Value()), chain, uri, block, dir, hash, account, pretend)
              case Done(docs, pays) => r == Pays(pays) && Value() == docs && Indexes()
              case Failed(why) => r == Threw(why)
    {
      if block != chain.length && block + 1 != chain.length { return Threw(Inconsistent); }
      if uri !in units { return Pays(map[]); }
      if hash != "" {
        r := CancelUnit(uri, chain.TimeOf(block), dir, hash, account, pretend && dir.Forward?);
      } else if dir.Forward? {
        r := UseUnit(uri, chain.TimeOf(block));
      } else {
        r := UnuseUnit(uri, chain.TimeOf(block));
      }
    }

    // The book gets the new sponsorship, or is started with it.
    method AppendItem(s: Sponsoring, hash: Hash)
      requires Indexes() && Ok(BookWith(Value(), s, hash))
      modifies this`units
      ensures Indexes() && Value() == old(Value()).(books := old(Value()).books[s.uri := BookWith(old(Value()), s, hash)])
    {
      var ok, c;
      if s.uri in units {
        ok, c := SponsorIndexed(units[s.uri], NewItem(s, hash), sort);
      } else {
        ok, c := OpenIndexed(NewItem(s, hash), sort);
      }
      PutUnit(s.uri, c);
    }

    method WriteExpiry(uri: Uri, hash: Hash, block: nat)
      modifies this`expiring, this`blockOf
      ensures expiring ==
              old(expiring)[block := (if block in old(expiring) then old(expiring)[block] else map[])[hash := Expiry(uri, hash, block, 0)]]
      ensures blockOf == old(blockOf)[hash := block]
    {
      var row := if block in expiring then expiring[block] else map[];
      expiring := expiring[block := row[hash := Expiry(uri, hash, block, 0)]];
      blockOf := blockOf[hash := block];
    }

    method SponsorContentUnitApply(chain: Chain, s: Sponsoring, hash: Hash) returns (ok: bool)
      requires Indexes()
      requires s.hours > 0 ==> Ok(BookWith(Value(), s, hash))
      modifies this`units, this`expiring, this`blockOf
      ensures ok <==> SponsorApply(old(Value()), chain, s, hash).Some?
      ensures ok ==> Indexes() && SponsorApply(old(Value()), chain, s, hash) == Some(Value())
    {
      var item := NewItem(s, hash);
      if item.end <= item.start { return false; }
      AppendItem(s, hash);
      WriteExpiry(s.uri, hash, ExpiringBlock(chain, item.end));
      return true;
    }

    // The book loses its last sponsorship and disappears with its only one.
    method RemoveItem(uri: Uri)
      requires Indexes() && uri in units && |units[uri].book.items| > 0
      modifies this`units
      ensures Indexes()
      ensures var was := old(Value()); var b := was.books[uri];
              Value() == was.(books := if |b.items| == 1 then was.books - {uri} else was.books[uri := WithoutLast(b)])
    {
      if |units[uri].book.items| == 1 {
        assert BooksOf(units - {uri}) == BooksOf(units) - {uri};
        units := units - {uri};
      } else {
        var ok, c := UnsponsorIndexed(units[uri], sort);
        PutUnit(uri, c);
      }
    }

    method SponsorContentUnitRevert(chain: Chain, s: Sponsoring, hash: Hash) returns (ok: bool)
      requires Indexes()
      modifies this`units, this`expiring, this`blockOf
      ensures ok <==> SponsorRevert(old(Value()), chain, s, hash).Some?
      ensures ok ==> Indexes() && SponsorRevert(old(Value()), chain, s, hash) == Some(Value())
    {
      if s.uri !in units { return false; }
      var b := units[s.uri].book;
      if |b.items| == 0 || b.items[|b.items| - 1].amount != s.amount { return false; }
      var item := b.items[|b.items| - 1];
      if |b.points| != item.pointsBefore || item.hash != hash || item.cancelled { return false; }
      RemoveItem(s.uri);
      var block := ExpiringBlock(chain, item.end);
      if block !in expiring || hash !in expiring[block] { return false; }
      if expiring[block][hash] != Expiry(s.uri, hash, block, 0) { return false; }
      var row := expiring[block] - {hash};
      expiring := if row == map[] then expiring - {block} else expiring[block := row];
      blockOf := blockOf - {hash};
      return true;
    }

    // What block `block` has to expire, in no particular order.
    method ContentUnitUriSponsorExpiring(block: nat) returns (result: seq<(Uri, Hash)>)
      ensures forall uri, hash :: (uri, hash) in result <==> Due(Value(), block, uri, hash)
      ensures forall i, j :: 0 <= i < j < |result| ==> result[i].1 != result[j].1
    {
      result := [];
      if block !in expiring { return; }
      var rest := expiring[block];
      while rest != map[]
        invariant rest.Keys <= expiring[block].Keys && forall h <- rest :: rest[h] == expiring[block][h]
        invariant forall uri, hash :: (uri, hash) in result <==> Due(Value(), block, uri, hash) && hash !in rest
        invariant forall i, j :: 0 <= i < j < |result| ==> result[i].1 != result[j].1
        invariant forall i :: 0 <= i < |result| ==> result[i].1 !in rest
        decreases rest.Keys
      {
        var hash :| hash in rest;
        if rest[hash].manuallyCancelled == 0 {
          result := result + [(rest[hash].uri, hash)];
        }
        rest := rest - {hash};
      }
    }

    method StorageUpdate(uri: Uri, address: Address, store: bool)
      requires uri in holders ==> holders[uri] != {}
      modifies this`holders
      ensures Value() == StorageUpdated(old(Value()), uri, address, store)
    {
      if store {
        if uri !in holders {
          holders := holders[uri := {address}];
        } else {
          holders := holders[uri := holders[uri] + {address}];
        }
      } else if uri in holders {
        var left := holders[uri] - {address};
        holders := if left == {} then holders - {uri} else holders[uri := left];
      }
      assert uri !in old(holders) ==> old(holders) - {uri} == old(holders);
      ghost var none: set<Address> := {};
      assert none + {address} == {address} && none - {address} == none;
    }

    method StorageHasUri(uri: Uri, address: Address) returns (has: bool)
      ensures has <==> Holds(Value(), uri, address)
    {
      if uri !in holders { return false; }
      return address in holders[uri];
    }
  }
}
