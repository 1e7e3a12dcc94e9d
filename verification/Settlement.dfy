/** The block that takes care of a sponsorship's end leaves nothing of it. */
module Settlement {
  import opened Basics
  import opened Sponsorship
  import opened Books
  import opened DocumentValues
  import opened BlockDocs

  lemma MarkedLikeCancelled(b: Book, t: int, hashes: set<Hash>, i: nat)
    requires Ok(b) && i < |b.items| && b.items[i].hash in hashes && !b.items[i].cancelled
    ensures Ok(MarkSet(b, t, hashes)) && i < |MarkSet(b, t, hashes).items|
    ensures var c := Cancelled(b, t, b.items[i].hash, true);
            && Ok(c) && i < |c.items| && MarkSet(b, t, hashes).items[i] == c.items[i] && MarkSet(b, t, hashes).points == c.points
  {
    MarkSetIsOk(b, t, hashes);
    if t > b.Last() { MarkedIsOk(b, t, b.items[i].hash, true); }
  }

  lemma RemainingOfItem(b: Book, c: Book, i: nat)
    requires Ok(b) && Ok(c) && i < |b.items| && i < |c.items| && b.items[i] == c.items[i] && b.points == c.points
    ensures Remaining(b, i) == Remaining(c, i)
  {}

  lemma FlagStays(b: Book, t: int, hashes: set<Hash>, i: nat)
    requires Ok(b) && i < |b.items| && b.items[i].cancelled
    ensures Ok(MarkSet(b, t, hashes)) && i < |MarkSet(b, t, hashes).items| && MarkSet(b, t, hashes).items[i].cancelled
  {
    MarkSetIsOk(b, t, hashes);
  }

  // One book: an item past its end that is used or expired.
  lemma BookSettles(b: Book, t: int, used: bool, hashes: set<Hash>, i: nat)
    requires Ok(b) && Fresh(b, t) && i < |b.items| && b.items[i].end <= t
    requires used || b.items[i].hash in hashes || b.items[i].cancelled
    ensures var b' := BookEffect(b, t, used, hashes);
            && Ok(b') && i < |b'.items|
            && Remaining(b', i) == if used || t > b.Last() || b.items[i].cancelled then 0 else Remaining(b, i)
  {
    assert OkItem(b.items[i], |b.points|);
    if used {
      UsedIsOk(b, t);
      SettledWhenExhausted(Used(b, t), i);
    } else if b.items[i].cancelled {
      FlagStays(b, t, hashes, i);
    } else {
      MarkedLikeCancelled(b, t, hashes, i);
      CancelSettles(b, t, b.items[i].hash, i);
      RemainingOfItem(MarkSet(b, t, hashes), Cancelled(b, t, b.items[i].hash, true), i);
    }
  }

  lemma IsDue(d: Docs, c: Chain, viewed: seq<Uri>, due: seq<(Uri, Hash)>, uri: Uri, i: nat)
    requires OkEntries(d) && DueList(d, c.length, viewed, due)
    requires uri in d.books && i < |d.books[uri].items| && uri !in viewed && !d.books[uri].items[i].cancelled
    requires d.books[uri].items[i].hash in d.blockOf && d.blockOf[d.books[uri].items[i].hash] == c.length
    ensures d.books[uri].items[i].hash in HashesOf(Elements(due), uri)
  {
    var it := d.books[uri].items[i];
    assert OkEntry(d, uri, it);
    assert Due(d, c.length, uri, it.hash);
    assert (uri, it.hash) in due;
    assert (uri, it.hash) in Elements(due);
  }

  // After the block a sponsorship expires in, nothing of it is left - unless its unit was not
  // viewed and the first sponsor's start, still ahead, is the unit's only time point: then
  // all that was left stays, for a later use to lose or pay.
  lemma ExpiryBlockSettles(d: Docs, c: Chain, viewed: seq<Uri>, due: seq<(Uri, Hash)>, uri: Uri, i: nat)
    requires OkEntries(d) && OkTable(d) && InTime(d, c) && AllOk(d, c.Now()) && Distinct(viewed) && DueList(d, c.length, viewed, due)
    requires GrantDocs(d, c, viewed, due, Forward).Some?
    requires uri in d.books && i < |d.books[uri].items|
    requires d.books[uri].items[i].hash in d.blockOf && d.blockOf[d.books[uri].items[i].hash] == c.length
    ensures var d' := GrantDocs(d, c, viewed, due, Forward).value.1.docs;
            var b := d.books[uri];
            && uri in d'.books && Ok(d'.books[uri]) && i < |d'.books[uri].items|
            && Remaining(d'.books[uri], i) ==
               if uri in viewed || c.Now() > b.Last() || b.items[i].cancelled then 0 else Remaining(b, i)
  {
    var t, b := c.Now(), d.books[uri];
    assert EndsInTime(d, c, b.items[i]);
    DueFacts(d, c.length, viewed, due);
    GrantForward(d, c, t, viewed, due);
    EffectBooks(d, t, Elements(viewed), Elements(due), uri);
    if uri !in viewed && !b.items[i].cancelled { IsDue(d, c, viewed, due, uri, i); }
    BookSettles(b, t, uri in Elements(viewed), HashesOf(Elements(due), uri), i);
  }

  // The second sponsorship ends before the first one starts: expiring it gives nothing back.
  lemma ExpiryLeavesExample()
    ensures
      var first := Item(3600000, 10000, 13600, "a", "h1", 0, false);
      var second := Item(3600000, 0, 3600, "b", "h2", 0, false);
      var b := Sponsored(Opened(first), second);
      && Ok(b) && Fresh(b, 4200) && b.items[1].end <= 4200 && CancelPays(b, 4200, "h2") == map[]
      && Ok(BookEffect(b, 4200, false, {"h2"})) && Remaining(BookEffect(b, 4200, false, {"h2"}), 1) == 3600000
  {
    var first := Item(3600000, 10000, 13600, "a", "h1", 0, false);
    var second := Item(3600000, 0, 3600, "b", "h2", 0, false);
    var b := Sponsored(Opened(first), second);
    assert OkItem(b.items[0], 1) && OkItem(b.items[1], 1);
    assert Ok(b);
    EarnedEnds(b.items[1]);
    BookSettles(b, 4200, false, {"h2"}, 1);
  }
}
