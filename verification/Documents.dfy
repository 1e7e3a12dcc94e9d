/**
 The sponsorship part of the node's document store as values: the books of all units and
 the table of expirations.  Operations return None (or Threw) where the code throws; the
 caller then discards everything it did.
 */
module DocumentValues {
  import opened Basics
  import opened Collecting
  import opened Sponsorship
  import opened Books
  import opened SponsorIndex

  // The chain as far as sponsorships look at it; headers are exactly one delay apart.
  datatype Chain = Chain(genesis: int, length: nat) {
    function TimeOf(block: nat): int {
      genesis + BLOCK_MINE_DELAY * block
    }

    // The time of the block that comes next.
    function Now(): int {
      TimeOf(length)
    }
  }

  datatype Expiry = Expiry(uri: Uri, hash: Hash, block: nat, manuallyCancelled: Amount)

  type Expirations = map<nat, map<Hash, Expiry>>

  datatype Docs = Docs(books: map<Uri, Book>, expiring: Expirations, blockOf: map<Hash, nat>, holders: map<Uri, set<Address>>)

  datatype Sponsoring = Sponsoring(uri: Uri, sponsor: Address, start: int, hours: nat, amount: Amount)

  function NewItem(s: Sponsoring, hash: Hash): Item {
    Item(s.amount, s.start, s.start + 3600 * s.hours, s.sponsor, hash, 0, false)
  }

  // ----- Expirations -----

  function CeilDiv(n: nat): nat {
    n / BLOCK_MINE_DELAY + if n % BLOCK_MINE_DELAY != 0 then 1 else 0
  }

  // The block that will take care of an item ending at `end`.
  function ExpiringBlock(c: Chain, end: int): nat {
    if end > c.genesis && CeilDiv(end - c.genesis) > c.length then CeilDiv(end - c.genesis) else c.length
  }

  // It is the first block from now on whose time is not before the end.
  lemma ExpiringBlockIsFirst(c: Chain, end: int)
    ensures c.length <= ExpiringBlock(c, end) && end <= c.TimeOf(ExpiringBlock(c, end))
    ensures forall n: nat :: c.length <= n && end <= c.TimeOf(n) ==> ExpiringBlock(c, end) <= n
  {}

  function AddExpiry(e: Expirations, x: Expiry): Expirations {
    e[x.block := (if x.block in e then e[x.block] else map[])[x.hash := x]]
  }

  function DropExpiry(e: Expirations, block: nat, hash: Hash): Expirations
    requires block in e
  {
    var rest := e[block] - {hash};
    if rest == map[] then e - {block} else e[block := rest]
  }

  lemma DropUndoesAdd(e: Expirations, x: Expiry)
    requires x.block in e ==> e[x.block] != map[] && x.hash !in e[x.block]
    ensures DropExpiry(AddExpiry(e, x), x.block, x.hash) == e
  {
    var row := if x.block in e then e[x.block] else map[];
    assert row[x.hash := x] - {x.hash} == row;
  }

  predicate HasExpiry(d: Docs, hash: Hash) {
    hash in d.blockOf && d.blockOf[hash] in d.expiring && hash in d.expiring[d.blockOf[hash]]
  }

  function ExpiryOf(d: Docs, hash: Hash): Expiry
    requires HasExpiry(d, hash)
  {
    d.expiring[d.blockOf[hash]][hash]
  }

  function WithManual(d: Docs, hash: Hash, amount: Amount): Docs
    requires HasExpiry(d, hash)
  {
    var block := d.blockOf[hash];
    d.(expiring := d.expiring[block := d.expiring[block][hash := d.expiring[block][hash].(manuallyCancelled := amount)]])
  }

  // ----- The invariant of the store -----

  predicate OkRow(d: Docs, block: nat, hash: Hash)
    requires block in d.expiring && hash in d.expiring[block]
  {
    var x := d.expiring[block][hash];
    && hash != "" && x.hash == hash && x.block == block && hash in d.blockOf && d.blockOf[hash] == block
    && x.uri in d.books
  }

  // Every sponsorship has its expiration entry.
  predicate OkEntry(d: Docs, uri: Uri, it: Item) {
    && HasExpiry(d, it.hash) && ExpiryOf(d, it.hash).uri == uri
    && (ExpiryOf(d, it.hash).manuallyCancelled != 0 ==> it.cancelled)
  }

  predicate OkBook(d: Docs, now: int, uri: Uri)
    requires uri in d.books
  {
    Ok(d.books[uri]) && Fresh(d.books[uri], now)
  }

  predicate OkBooks(d: Docs, now: int) {
    forall uri <- d.books :: OkBook(d, now, uri)
  }

  predicate OkEntries(d: Docs) {
    forall uri <- d.books, i :: 0 <= i < |d.books[uri].items| ==> OkEntry(d, uri, d.books[uri].items[i])
  }

  predicate OkTable(d: Docs) {
    && (forall block <- d.expiring :: d.expiring[block] != map[])
    && (forall block <- d.expiring, hash <- d.expiring[block] :: OkRow(d, block, hash))
  }

  predicate OkHolders(d: Docs) {
    forall uri <- d.holders :: d.holders[uri] != {}
  }

  predicate OkDocs(d: Docs, now: int) {
    OkBooks(d, now) && OkEntries(d) && OkTable(d) && OkHolders(d)
  }

  predicate EndsInTime(d: Docs, c: Chain, it: Item) {
    it.hash in d.blockOf && it.end <= c.TimeOf(d.blockOf[it.hash])
  }

  // Every sponsorship ends by the time of the block that takes care of it.
  predicate InTime(d: Docs, c: Chain) {
    forall uri <- d.books, i :: 0 <= i < |d.books[uri].items| ==> EndsInTime(d, c, d.books[uri].items[i])
  }

  // The same items up to their flags.
  predicate SameItems(b: Book, b': Book) {
    && |b.items| == |b'.items|
    && forall i :: 0 <= i < |b.items| ==> b'.items[i].(cancelled := false) == b.items[i].(cancelled := false)
  }

  lemma InTimeFrame(d: Docs, d': Docs, c: Chain)
    requires InTime(d, c) && d'.blockOf == d.blockOf
    requires forall uri <- d'.books :: uri in d.books && SameItems(d.books[uri], d'.books[uri])
    ensures InTime(d', c)
  {
    forall uri, i | uri in d'.books && 0 <= i < |d'.books[uri].items| ensures EndsInTime(d', c, d'.books[uri].items[i]) {
      assert SameItems(d.books[uri], d'.books[uri]) && EndsInTime(d, c, d.books[uri].items[i]);
      assert d'.books[uri].items[i].(cancelled := false) == d.books[uri].items[i].(cancelled := false);
    }
  }

  // ----- Sponsoring -----

  function BookWith(d: Docs, s: Sponsoring, hash: Hash): Book {
    if s.uri in d.books then Sponsored(d.books[s.uri], NewItem(s, hash)) else Opened(NewItem(s, hash))
  }

  function SponsorApply(d: Docs, c: Chain, s: Sponsoring, hash: Hash): Option<Docs> {
    if s.hours == 0 then None
    else
      var block := ExpiringBlock(c, NewItem(s, hash).end);
      Some(Docs(d.books[s.uri := BookWith(d, s, hash)],
                AddExpiry(d.expiring, Expiry(s.uri, hash, block, 0)),
                d.blockOf[hash := block],
                d.holders))
  }

  function WithoutLast(b: Book): Book
    requires |b.items| > 0
  {
    b.(items := b.items[..|b.items| - 1])
  }

  // Taking back the last sponsorship of the unit, which must be the given one, unused.
  function SponsorRevert(d: Docs, c: Chain, s: Sponsoring, hash: Hash): Option<Docs> {
    if s.uri !in d.books || |d.books[s.uri].items| == 0 then None
    else
      var b := d.books[s.uri];
      var it := b.items[|b.items| - 1];
      var block := ExpiringBlock(c, it.end);
      if it.amount != s.amount || |b.points| != it.pointsBefore || it.hash != hash || it.cancelled then None
      else if block !in d.expiring || hash !in d.expiring[block] then None
      else if d.expiring[block][hash] != Expiry(s.uri, hash, block, 0) then None
      else
        Some(Docs(if |b.items| == 1 then d.books - {s.uri} else d.books[s.uri := WithoutLast(b)],
                  DropExpiry(d.expiring, block, hash),
                  d.blockOf - {hash},
                  d.holders))
  }

  lemma NewHashHasNoRow(d: Docs, block: nat, hash: Hash)
    requires OkTable(d) && hash !in d.blockOf
    ensures block in d.expiring ==> hash !in d.expiring[block]
  {
    assert block in d.expiring && hash in d.expiring[block] ==> OkRow(d, block, hash);
  }

  lemma SponsorKeepsBooks(d: Docs, now: int, c: Chain, s: Sponsoring, hash: Hash)
    requires OkBooks(d, now) && OkEntries(d) && s.hours > 0 && hash != "" && hash !in d.blockOf
    ensures OkBooks(SponsorApply(d, c, s, hash).value, now)
  {
    var d' := SponsorApply(d, c, s, hash).value;
    if s.uri in d.books {
      var b := d.books[s.uri];
      assert OkBook(d, now, s.uri) && OpensWith(b, 0);
      forall i | 0 <= i < |b.items| ensures b.items[i].hash != hash && OkItem(b.items[i], |b.points|) {
        assert OkEntry(d, s.uri, b.items[i]);
      }
    }
    assert OkBook(d', now, s.uri);
    forall uri | uri in d.books && uri != s.uri ensures OkBook(d', now, uri) {
      assert OkBook(d, now, uri);
    }
  }

  lemma SponsorKeepsEntries(d: Docs, c: Chain, s: Sponsoring, hash: Hash)
    requires OkEntries(d) && s.hours > 0 && hash !in d.blockOf
    ensures OkEntries(SponsorApply(d, c, s, hash).value)
  {
    var d' := SponsorApply(d, c, s, hash).value;
    forall uri, i | uri in d'.books && 0 <= i < |d'.books[uri].items|
      ensures OkEntry(d', uri, d'.books[uri].items[i])
    {
      if uri == s.uri && i == |d'.books[uri].items| - 1 {
      } else {
        assert OkEntry(d, uri, d.books[uri].items[i]);
      }
    }
  }

  lemma SponsorKeepsTable(d: Docs, c: Chain, s: Sponsoring, hash: Hash)
    requires OkTable(d) && s.hours > 0 && hash != "" && hash !in d.blockOf
    ensures OkTable(SponsorApply(d, c, s, hash).value)
  {
    var d' := SponsorApply(d, c, s, hash).value;
    var block := ExpiringBlock(c, NewItem(s, hash).end);
    NewHashHasNoRow(d, block, hash);
    assert hash in d'.expiring[block];
    forall n, h | n in d'.expiring && h in d'.expiring[n] ensures OkRow(d', n, h) {
      NewHashHasNoRow(d, n, hash);
      if h != hash { assert OkRow(d, n, h); }
    }
  }

  lemma SponsorKeepsOk(d: Docs, now: int, c: Chain, s: Sponsoring, hash: Hash)
    requires OkDocs(d, now) && s.hours > 0 && hash != "" && hash !in d.blockOf
    ensures OkDocs(SponsorApply(d, c, s, hash).value, now)
  {
    SponsorKeepsBooks(d, now, c, s, hash);
    SponsorKeepsEntries(d, c, s, hash);
    SponsorKeepsTable(d, c, s, hash);
  }

  lemma SponsorKeepsTime(d: Docs, c: Chain, s: Sponsoring, hash: Hash)
    requires InTime(d, c) && s.hours > 0 && hash !in d.blockOf
    ensures InTime(SponsorApply(d, c, s, hash).value, c)
  {
    var d' := SponsorApply(d, c, s, hash).value;
    ExpiringBlockIsFirst(c, NewItem(s, hash).end);
    forall uri, i | uri in d'.books && 0 <= i < |d'.books[uri].items| ensures EndsInTime(d', c, d'.books[uri].items[i]) {
      if uri != s.uri || i < |d'.books[uri].items| - 1 { assert EndsInTime(d, c, d.books[uri].items[i]); }
    }
  }

  // Sponsoring and taking it back leaves every table as it was.
  lemma SponsorRevertRestores(d: Docs, now: int, c: Chain, s: Sponsoring, hash: Hash)
    requires OkDocs(d, now) && s.hours > 0 && hash != "" && hash !in d.blockOf
    ensures SponsorRevert(SponsorApply(d, c, s, hash).value, c, s, hash) == Some(d)
  {
    NewHashHasNoRow(d, ExpiringBlock(c, NewItem(s, hash).end), hash);
    assert s.uri in d.books ==> OkBook(d, now, s.uri);
    UnsponsorStores(d, c, s, hash);
  }

  lemma UnsponsorStores(d: Docs, c: Chain, s: Sponsoring, hash: Hash)
    requires s.hours > 0 && hash !in d.blockOf
    requires s.uri in d.books ==> |d.books[s.uri].items| > 0
    requires var block := ExpiringBlock(c, NewItem(s, hash).end);
             block in d.expiring ==> d.expiring[block] != map[] && hash !in d.expiring[block]
    ensures SponsorRevert(SponsorApply(d, c, s, hash).value, c, s, hash) == Some(d)
  {
    var d' := SponsorApply(d, c, s, hash).value;
    var b' := d'.books[s.uri];
    var it := b'.items[|b'.items| - 1];
    DropUndoesAdd(d.expiring, Expiry(s.uri, hash, ExpiringBlock(c, it.end), 0));
    assert d'.blockOf - {hash} == d.blockOf;
    if s.uri in d.books {
      assert WithoutLast(b') == d.books[s.uri];
      assert d'.books[s.uri := d.books[s.uri]] == d.books;
    } else {
      assert d'.books - {s.uri} == d.books;
    }
  }

  // ----- Using and cancelling -----

  // Going back rebuilds an index with the sort of the library.
  datatype Direction = Forward | Backward(sort: Sort)

  datatype Failure = NotTheSponsor | AlreadyCancelled | Inconsistent

  datatype SetUsed = Done(docs: Docs, pays: map<Hash, Payment>) | Failed(why: Failure)

  predicate IsCancelled(b: Book, hash: Hash) {
    exists i :: 0 <= i < |b.items| && b.items[i].hash == hash && b.items[i].cancelled
  }

  function WithBook(d: Docs, uri: Uri, b: Book): Docs {
    d.(books := d.books[uri := b])
  }

  function UseForward(d: Docs, uri: Uri, t: int): SetUsed
    requires uri in d.books && Ok(d.books[uri])
  {
    Done(WithBook(d, uri, Used(d.books[uri], t)), UsePays(d.books[uri], t))
  }

  // The undone use must be the last one, and older than every sponsorship still there.
  predicate CanUnuse(b: Book)
    requires Ok(b)
  {
    |b.points| > 1 && forall i :: 0 <= i < |b.items| ==> b.items[i].pointsBefore < |b.points|
  }

  lemma UnusedIsOk(b: Book)
    requires Ok(b) && CanUnuse(b)
    ensures Ok(Unused(b)) && Fresh(Unused(b), b.Last()) && ScanTime(Unused(b), b.Last())
  {
    assert OpensWith(b, 0);
    forall i | 0 <= i < |b.items| ensures OkItem(b.items[i], |b.points| - 1) {
      assert OkItem(b.items[i], |b.points|);
    }
  }

  function UseBackward(d: Docs, uri: Uri, t: int, sort: Sort): SetUsed
    requires uri in d.books && Ok(d.books[uri])
  {
    var b := d.books[uri];
    if t != b.Last() then Done(d, map[])
    else if !CanUnuse(b) then Failed(Inconsistent)
    else
      UnusedIsOk(b);
      Done(WithBook(d, uri, Unused(b)), UndoPays(Unused(b), t, sort))
  }

  function Cancelling(d: Docs, uri: Uri, t: int, dir: Direction, hash: Hash, account: Address, pretend: bool): SetUsed
    requires uri in d.books && Ok(d.books[uri])
  {
    var b := d.books[uri];
    var pays := CancelPays(b, t, hash);
    if hash !in pays then Done(d, map[])
    else if account != "" && pays[hash].sponsor != account then
      if pretend then Done(d, map[]) else Failed(NotTheSponsor)
    else if !HasExpiry(d, hash) then Failed(Inconsistent)
    else
      var manual := ExpiryOf(d, hash).manuallyCancelled;
      if dir.Forward? then
        if IsCancelled(b, hash) then (if pretend then Done(d, map[]) else Failed(AlreadyCancelled))
        else if manual != 0 then Failed(Inconsistent)
        else if pretend then Done(d, pays)
        else
          var d' := WithBook(d, uri, Cancelled(b, t, hash, true));
          Done(if account == "" then d' else WithManual(d', hash, pays[hash].amount), pays)
      else
        if !IsCancelled(b, hash) || (account != "") != (manual != 0) then Failed(Inconsistent)
        else
          var d' := WithBook(d, uri, Cancelled(b, t, hash, false));
          Done(if account == "" then d' else WithManual(d', hash, 0), pays)
  }

  // One call of the code's set-used operation, at the time of block `block`.
  function SetUsedAt(d: Docs, c: Chain, uri: Uri, block: nat, dir: Direction, hash: Hash, account: Address, pretend: bool): SetUsed
    requires uri in d.books ==> Ok(d.books[uri])
  {
    if block != c.length && block + 1 != c.length then Failed(Inconsistent)
    else if uri !in d.books then Done(d, map[])
    else if hash != "" then Cancelling(d, uri, c.TimeOf(block), dir, hash, account, pretend && dir.Forward?)
    else if dir.Forward? then UseForward(d, uri, c.TimeOf(block))
    else UseBackward(d, uri, c.TimeOf(block), dir.sort)
  }

  lemma CancelPaysOne(b: Book, t: int, hash: Hash)
    requires Ok(b) && hash != ""
    ensures CancelPays(b, t, hash).Keys <= {hash}
    ensures hash in CancelPays(b, t, hash) ==>
              CancelPays(b, t, hash)[hash].amount > 0 && exists i :: 0 <= i < |b.items| && b.items[i].hash == hash
  {
    if t > b.Last() {
      var m := Scan(b, t, hash);
      CollectHas(Hashes(b), Lines(b, t, hash), Identity(|b.items|));
      forall h | h in m
        ensures h == hash && m[h].amount > 0 && exists i :: 0 <= i < |b.items| && b.items[i].hash == hash
      {
        var i :| i in Identity(|b.items|) && Lines(b, t, hash)[i].Some? && Hashes(b)[i] == h;
        assert Line(b, i, t, hash).Some?;
      }
    }
  }

  lemma TableFrame(d: Docs, d': Docs)
    requires OkTable(d) && d'.expiring == d.expiring && d'.blockOf == d.blockOf && d.books.Keys <= d'.books.Keys
    ensures OkTable(d')
  {
    forall n, h | n in d'.expiring && h in d'.expiring[n] ensures OkRow(d', n, h) { assert OkRow(d, n, h); }
  }

  lemma SetBookKeepsEntries(d: Docs, uri: Uri, b: Book)
    requires OkEntries(d) && forall i :: 0 <= i < |b.items| ==> OkEntry(d, uri, b.items[i])
    ensures OkEntries(WithBook(d, uri, b))
  {
    var d' := WithBook(d, uri, b);
    forall u, i | u in d'.books && 0 <= i < |d'.books[u].items| ensures OkEntry(d', u, d'.books[u].items[i]) {
      assert OkEntry(d, u, d'.books[u].items[i]);
    }
  }

  lemma SetBookKeepsOk(d: Docs, now: int, uri: Uri, b: Book)
    requires OkDocs(d, now) && uri in d.books && Ok(b) && Fresh(b, now)
    requires forall i :: 0 <= i < |b.items| ==> OkEntry(d, uri, b.items[i])
    ensures OkDocs(WithBook(d, uri, b), now)
  {
    var d' := WithBook(d, uri, b);
    forall u | u in d'.books ensures OkBook(d', now, u) { if u != uri { assert OkBook(d, now, u); } }
    SetBookKeepsEntries(d, uri, b);
    TableFrame(d, d');
  }

  lemma UsedCanUnuse(b: Book, t: int)
    requires Ok(b) && Fresh(b, t)
    ensures var b' := Used(b, t); Ok(b') && CanUnuse(b') && b'.Last() == t && Unused(b') == b
  {
    UsedIsOk(b, t);
    UnuseRestores(b, t);
    forall i | 0 <= i < |b.items| ensures b.items[i].pointsBefore <= |b.points| { assert OkItem(b.items[i], |b.points|); }
  }

  lemma UnuseBook(e: Docs, uri: Uri, b: Book, t: int, sort: Sort)
    requires Ok(b) && Fresh(b, t) && uri in e.books && e.books[uri] == Used(b, t)
    ensures Ok(e.books[uri]) && UseBackward(e, uri, t, sort) == Done(WithBook(e, uri, b), UndoPays(b, t, sort))
  {
    UsedCanUnuse(b, t);
  }

  // A use is taken back completely, and the payments reported while doing so are those of
  // the use when it came after the last recorded point, or the sort keeps the first first.
  lemma UseBackwardRestores(d: Docs, t: int, uri: Uri, sort: Sort)
    requires uri in d.books && Ok(d.books[uri]) && Fresh(d.books[uri], t)
    ensures var b := d.books[uri]; var d' := UseForward(d, uri, t).docs;
            && Ok(d'.books[uri])
            && UseBackward(d', uri, t, sort) == Done(d, UndoPays(b, t, sort))
            && (t > b.Last() || KeepsFirst(sort) ==> UndoPays(b, t, sort) == UseForward(d, uri, t).pays)
  {
    var b := d.books[uri];
    var d' := WithBook(d, uri, Used(b, t));
    assert WithBook(d', uri, b) == d by { assert d.books[uri := Used(b, t)][uri := b] == d.books; }
    UnuseBook(d', uri, b, t, sort);
    UndoReports(b, t, sort);
  }

  lemma ManualKeepsTable(d: Docs, hash: Hash, amount: Amount)
    requires OkTable(d) && HasExpiry(d, hash)
    ensures OkTable(WithManual(d, hash, amount))
  {
    var d' := WithManual(d, hash, amount);
    forall n, h | n in d'.expiring && h in d'.expiring[n] ensures OkRow(d', n, h) { assert OkRow(d, n, h); }
    forall n | n in d'.expiring ensures d'.expiring[n] != map[] {
      if n == d.blockOf[hash] { assert hash in d'.expiring[n]; }
    }
  }

  ghost predicate AllCancelled(d: Docs, hash: Hash) {
    forall uri, i :: uri in d.books && 0 <= i < |d.books[uri].items| && d.books[uri].items[i].hash == hash ==>
      d.books[uri].items[i].cancelled
  }

  lemma ManualKeepsEntries(d: Docs, hash: Hash, amount: Amount)
    requires OkEntries(d) && OkTable(d) && HasExpiry(d, hash)
    requires amount != 0 ==> AllCancelled(d, hash)
    ensures OkEntries(WithManual(d, hash, amount))
  {
    var d' := WithManual(d, hash, amount);
    forall u, i | u in d'.books && 0 <= i < |d'.books[u].items| ensures OkEntry(d', u, d'.books[u].items[i]) {
      assert OkEntry(d, u, d.books[u].items[i]);
    }
  }

  lemma ManualKeepsOk(d: Docs, now: int, hash: Hash, amount: Amount)
    requires OkDocs(d, now) && HasExpiry(d, hash)
    requires amount != 0 ==> AllCancelled(d, hash)
    ensures OkDocs(WithManual(d, hash, amount), now)
  {
    var d' := WithManual(d, hash, amount);
    forall u | u in d'.books ensures OkBook(d', now, u) { assert OkBook(d, now, u); }
    ManualKeepsTable(d, hash, amount);
    ManualKeepsEntries(d, hash, amount);
  }

  // The item a scan for `hash` finds; hashes are unique in a book.
  lemma FindItem(b: Book, t: int, hash: Hash) returns (i: nat)
    requires Ok(b) && hash in CancelPays(b, t, hash)
    ensures t > b.Last() && i < |b.items| && b.items[i].hash == hash && Line(b, i, t, hash) == Some(CancelPays(b, t, hash)[hash])
  {
    var m := Scan(b, t, hash);
    CollectHas(Hashes(b), Lines(b, t, hash), Identity(|b.items|));
    i :| i in Identity(|b.items|) && Lines(b, t, hash)[i].Some? && Hashes(b)[i] == hash;
  }

  lemma CancelledKeepsEntries(d: Docs, uri: Uri, t: int, hash: Hash)
    requires OkEntries(d) && uri in d.books && Ok(d.books[uri])
    ensures var b' := Cancelled(d.books[uri], t, hash, true);
            && Ok(b') && b'.points == d.books[uri].points
            && forall i :: 0 <= i < |b'.items| ==> OkEntry(d, uri, b'.items[i])
  {
    var b := d.books[uri];
    if t > b.Last() { MarkedIsOk(b, t, hash, true); }
    var b' := Cancelled(b, t, hash, true);
    forall i | 0 <= i < |b'.items| ensures OkEntry(d, uri, b'.items[i]) { assert OkEntry(d, uri, b.items[i]); }
  }

  lemma CancelledKeepsBook(d: Docs, now: int, uri: Uri, t: int, hash: Hash)
    requires OkDocs(d, now) && uri in d.books && Ok(d.books[uri])
    ensures OkDocs(WithBook(d, uri, Cancelled(d.books[uri], t, hash, true)), now)
  {
    assert OkBook(d, now, uri);
    CancelledKeepsEntries(d, uri, t, hash);
    SetBookKeepsOk(d, now, uri, Cancelled(d.books[uri], t, hash, true));
  }

  // The entry names the book, so the found item is the only one with the hash.
  lemma FoundIsTheOnly(d: Docs, uri: Uri, t: int, hash: Hash, k: nat)
    requires OkEntries(d) && uri in d.books && Ok(d.books[uri])
    requires k < |d.books[uri].items| && d.books[uri].items[k].hash == hash && d.books[uri].items[k].cancelled
    ensures AllCancelled(d, hash) && HasExpiry(d, hash)
  {
    assert OkEntry(d, uri, d.books[uri].items[k]);
    forall u, i | u in d.books && 0 <= i < |d.books[u].items| && d.books[u].items[i].hash == hash
      ensures d.books[u].items[i].cancelled
    {
      assert OkEntry(d, u, d.books[u].items[i]);
      assert u == uri;
      assert i == k;
    }
  }

  lemma CancelledIsOk(d: Docs, now: int, uri: Uri, t: int, hash: Hash)
    requires OkDocs(d, now) && uri in d.books && Ok(d.books[uri]) && hash in CancelPays(d.books[uri], t, hash)
    ensures OkDocs(WithBook(d, uri, Cancelled(d.books[uri], t, hash, true)), now)
    ensures AllCancelled(WithBook(d, uri, Cancelled(d.books[uri], t, hash, true)), hash)
    ensures HasExpiry(d, hash)
  {
    var k := FindItem(d.books[uri], t, hash);
    CancelledKeepsBook(d, now, uri, t, hash);
    var d' := WithBook(d, uri, Cancelled(d.books[uri], t, hash, true));
    MarkedIsOk(d.books[uri], t, hash, true);
    FoundIsTheOnly(d', uri, t, hash, k);
  }

  // What a carried out cancellation leaves behind.
  function CancelledDocs(d: Docs, uri: Uri, t: int, hash: Hash, account: Address): Docs
    requires uri in d.books && Ok(d.books[uri]) && hash in CancelPays(d.books[uri], t, hash) && HasExpiry(d, hash)
  {
    var d1 := WithBook(d, uri, Cancelled(d.books[uri], t, hash, true));
    if account == "" then d1 else WithManual(d1, hash, CancelPays(d.books[uri], t, hash)[hash].amount)
  }

  lemma ForwardDone(d: Docs, uri: Uri, t: int, hash: Hash, account: Address)
    requires uri in d.books && Ok(d.books[uri]) && hash in CancelPays(d.books[uri], t, hash)
    requires Cancelling(d, uri, t, Forward, hash, account, false).Done?
    ensures HasExpiry(d, hash) && ExpiryOf(d, hash).manuallyCancelled == 0 && !IsCancelled(d.books[uri], hash)
    ensures account == "" || CancelPays(d.books[uri], t, hash)[hash].sponsor == account
    ensures Cancelling(d, uri, t, Forward, hash, account, false) ==
            Done(CancelledDocs(d, uri, t, hash, account), CancelPays(d.books[uri], t, hash))
  {}

  lemma CancelledDocsOk(d: Docs, now: int, uri: Uri, t: int, hash: Hash, account: Address)
    requires OkDocs(d, now) && uri in d.books && Ok(d.books[uri]) && hash in CancelPays(d.books[uri], t, hash)
    ensures HasExpiry(d, hash) && OkDocs(CancelledDocs(d, uri, t, hash, account), now)
  {
    CancelledIsOk(d, now, uri, t, hash);
    if account != "" {
      ManualKeepsOk(WithBook(d, uri, Cancelled(d.books[uri], t, hash, true)), now, hash,
                    CancelPays(d.books[uri], t, hash)[hash].amount);
    }
  }

  lemma CancelKeepsOk(d: Docs, now: int, uri: Uri, t: int, hash: Hash, account: Address)
    requires OkDocs(d, now) && uri in d.books && hash != "" && Ok(d.books[uri])
    requires Cancelling(d, uri, t, Forward, hash, account, false).Done?
    ensures OkDocs(Cancelling(d, uri, t, Forward, hash, account, false).docs, now)
  {
    if hash in CancelPays(d.books[uri], t, hash) {
      ForwardDone(d, uri, t, hash, account);
      CancelledDocsOk(d, now, uri, t, hash, account);
    }
  }

  lemma CancelKeepsTime(d: Docs, c: Chain, uri: Uri, t: int, hash: Hash, account: Address)
    requires InTime(d, c) && uri in d.books && hash != "" && Ok(d.books[uri])
    requires Cancelling(d, uri, t, Forward, hash, account, false).Done?
    ensures InTime(Cancelling(d, uri, t, Forward, hash, account, false).docs, c)
  {
    if hash in CancelPays(d.books[uri], t, hash) {
      ForwardDone(d, uri, t, hash, account);
      InTimeFrame(d, CancelledDocs(d, uri, t, hash, account), c);
    }
  }

  // Undoing a cancellation finds the same payment and restores flags and the expiration entry.
  lemma CancelBackwardRestores(d: Docs, uri: Uri, t: int, hash: Hash, account: Address, sort: Sort)
    requires uri in d.books && hash != "" && Ok(d.books[uri])
    requires Cancelling(d, uri, t, Forward, hash, account, false).Done?
    ensures var r := Cancelling(d, uri, t, Forward, hash, account, false);
            && uri in r.docs.books && Ok(r.docs.books[uri])
            && Cancelling(r.docs, uri, t, Backward(sort), hash, account, false) == Done(d, r.pays)
  {
    if hash in CancelPays(d.books[uri], t, hash) {
      ForwardDone(d, uri, t, hash, account);
      CancelledDocsUndone(d, uri, t, hash, account, sort);
    }
  }

  lemma CancelledDocsUndone(d: Docs, uri: Uri, t: int, hash: Hash, account: Address, sort: Sort)
    requires uri in d.books && Ok(d.books[uri]) && hash != "" && hash in CancelPays(d.books[uri], t, hash)
    requires HasExpiry(d, hash) && ExpiryOf(d, hash).manuallyCancelled == 0 && !IsCancelled(d.books[uri], hash)
    requires account == "" || CancelPays(d.books[uri], t, hash)[hash].sponsor == account
    ensures var d' := CancelledDocs(d, uri, t, hash, account);
            && uri in d'.books && Ok(d'.books[uri])
            && Cancelling(d', uri, t, Backward(sort), hash, account, false) == Done(d, CancelPays(d.books[uri], t, hash))
  {
    var b := d.books[uri];
    var k := FindItem(b, t, hash);
    CancelPaysOne(b, t, hash);
    UncancelRestores(b, t, hash);
    var b' := Cancelled(b, t, hash, true);
    assert b'.items[k].hash == hash && b'.items[k].cancelled;
    assert IsCancelled(b', hash);
    var d1 := WithBook(d, uri, b');
    assert d.books[uri := b'][uri := b] == d.books;
    ManualUndone(d1, d, hash, uri, b, CancelPays(b, t, hash)[hash].amount);
  }

  lemma ManualUndone(d1: Docs, d: Docs, hash: Hash, uri: Uri, b: Book, amount: Amount)
    requires HasExpiry(d1, hash) && ExpiryOf(d1, hash).manuallyCancelled == 0 && WithBook(d1, uri, b) == d
    ensures WithManual(WithBook(WithManual(d1, hash, amount), uri, b), hash, 0) == d
  {
    var n := d1.blockOf[hash];
    var row := d1.expiring[n];
    var x := row[hash];
    assert x.(manuallyCancelled := amount).(manuallyCancelled := 0) == x;
    assert row[hash := x.(manuallyCancelled := amount)][hash := x] == row;
    assert d1.expiring[n := row[hash := x.(manuallyCancelled := amount)]][n := row] == d1.expiring;
  }

  // A trial run changes nothing, yet it is silent about a wrong account and about an item
  // already cancelled: exactly then the trial succeeds and the real call throws.
  lemma TrialVersusReal(d: Docs, now: int, uri: Uri, t: int, hash: Hash, account: Address)
    requires OkDocs(d, now) && uri in d.books && hash != "" && Ok(d.books[uri])
    ensures var trial := Cancelling(d, uri, t, Forward, hash, account, true);
            var actual := Cancelling(d, uri, t, Forward, hash, account, false);
            var pays := CancelPays(d.books[uri], t, hash);
            && trial.Done? && trial.docs == d
            && (actual.Failed? <==>
                hash in pays && ((account != "" && pays[hash].sponsor != account) || IsCancelled(d.books[uri], hash)))
            && (actual.Failed? ==> trial.pays == map[])
  {
    if hash in CancelPays(d.books[uri], t, hash) { FoundHasEntry(d, uri, t, hash); }
    TrialVersusRealAt(d, uri, t, hash, account);
  }

  lemma TrialVersusRealAt(d: Docs, uri: Uri, t: int, hash: Hash, account: Address)
    requires uri in d.books && hash != "" && Ok(d.books[uri])
    requires hash in CancelPays(d.books[uri], t, hash) ==>
               HasExpiry(d, hash) && (ExpiryOf(d, hash).manuallyCancelled != 0 ==> IsCancelled(d.books[uri], hash))
    ensures var trial := Cancelling(d, uri, t, Forward, hash, account, true);
            var actual := Cancelling(d, uri, t, Forward, hash, account, false);
            var pays := CancelPays(d.books[uri], t, hash);
            && trial.Done? && trial.docs == d
            && (actual.Failed? <==>
                hash in pays && ((account != "" && pays[hash].sponsor != account) || IsCancelled(d.books[uri], hash)))
            && (actual.Failed? ==> trial.pays == map[])
  {}

  lemma FoundHasEntry(d: Docs, uri: Uri, t: int, hash: Hash)
    requires OkEntries(d) && uri in d.books && Ok(d.books[uri]) && hash in CancelPays(d.books[uri], t, hash)
    ensures HasExpiry(d, hash)
    ensures ExpiryOf(d, hash).manuallyCancelled != 0 ==> IsCancelled(d.books[uri], hash)
  {
    var b := d.books[uri];
    var k := FindItem(b, t, hash);
    assert OkEntry(d, uri, b.items[k]);
    assert b.items[k].hash == hash;
  }

  // A stranger asks whether he may cancel: the trial says yes, the real run throws.
  lemma TrialVersusRealExample()
    ensures
      var b := Opened(Item(3600, 0, 3600, "a", "h", 0, false));
      var d := Docs(map["u" := b], map[6 := map["h" := Expiry("u", "h", 6, 0)]], map["h" := 6], map[]);
      && Ok(b) && Fresh(b, 600)
      && Cancelling(d, "u", 600, Forward, "h", "stranger", true).Done?
      && Cancelling(d, "u", 600, Forward, "h", "stranger", false).Failed?
  {
    var b := Opened(Item(3600, 0, 3600, "a", "h", 0, false));
    assert OkItem(b.items[0], 1);
    assert Ok(b);
    ScanPaid(b, 600, "h", 0);
    EarnedEnds(b.items[0]);
    SliceIsForward(b, 0, 600, "h");
    PartIsEarnedDifference(b.items[0], 0, 3600);
    assert "h" in CancelPays(b, 600, "h");
    OnlyLine(b, 600, "h");
  }

  // What a scan for a hash finds names the sponsor of an item with that hash.
  lemma OnlyLine(b: Book, t: int, hash: Hash)
    requires Ok(b) && hash in CancelPays(b, t, hash)
    ensures exists i :: 0 <= i < |b.items| && b.items[i].hash == hash && CancelPays(b, t, hash)[hash].sponsor == b.items[i].sponsor
  {
    var i := FindItem(b, t, hash);
    assert b.items[i].hash == hash && CancelPays(b, t, hash)[hash].sponsor == b.items[i].sponsor;
  }

  // ----- Expirations due and holders of files -----

  // The sponsorships block `block` has to settle: not taken back by hand before.
  predicate Due(d: Docs, block: nat, uri: Uri, hash: Hash) {
    && block in d.expiring && hash in d.expiring[block]
    && d.expiring[block][hash].uri == uri && d.expiring[block][hash].manuallyCancelled == 0
  }

  function StorageUpdated(d: Docs, uri: Uri, address: Address, store: bool): Docs {
    var held := if uri in d.holders then d.holders[uri] else {};
    var left := if store then held + {address} else held - {address};
    d.(holders := if left == {} then d.holders - {uri} else d.holders[uri := left])
  }

  predicate Holds(d: Docs, uri: Uri, address: Address) {
    uri in d.holders && address in d.holders[uri]
  }

  // An update that changes something is undone by the opposite update.
  lemma StorageUndone(d: Docs, now: int, uri: Uri, address: Address, store: bool)
    requires OkDocs(d, now) && Holds(d, uri, address) == !store
    ensures OkDocs(StorageUpdated(d, uri, address, store), now)
    ensures StorageUpdated(StorageUpdated(d, uri, address, store), uri, address, !store) == d
  {
    HoldersUndone(d, uri, address, store);
    HoldersFrame(d, StorageUpdated(d, uri, address, store), now);
  }

  lemma HoldersFrame(d: Docs, d': Docs, now: int)
    requires OkDocs(d, now) && d' == d.(holders := d'.holders) && OkHolders(d')
    ensures OkDocs(d', now)
  {
    forall u | u in d'.books ensures OkBook(d', now, u) { assert OkBook(d, now, u); }
    EntriesFrame(d, d');
    TableFrame(d, d');
  }

  lemma EntriesFrame(d: Docs, d': Docs)
    requires OkEntries(d) && d'.books == d.books && d'.expiring == d.expiring && d'.blockOf == d.blockOf
    ensures OkEntries(d')
  {
    forall u, i | u in d'.books && 0 <= i < |d'.books[u].items| ensures OkEntry(d', u, d'.books[u].items[i]) {
      assert OkEntry(d, u, d.books[u].items[i]);
    }
  }

  lemma HoldersUndone(d: Docs, uri: Uri, address: Address, store: bool)
    requires OkHolders(d) && Holds(d, uri, address) == !store
    ensures OkHolders(StorageUpdated(d, uri, address, store))
    ensures StorageUpdated(StorageUpdated(d, uri, address, store), uri, address, !store) == d
  {
    var held := if uri in d.holders then d.holders[uri] else {};
    assert (held + {address}) - {address} == held || address in held;
    assert (held - {address}) + {address} == held || address !in held;
    if uri in d.holders { assert d.holders[uri := held] == d.holders; } else { assert d.holders - {uri} == d.holders; }
    var d' := StorageUpdated(d, uri, address, store);
    assert StorageUpdated(d', uri, address, !store).holders == d.holders;
  }
}
