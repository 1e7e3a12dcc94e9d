/**
 What granting the rewards of one block does to the sponsorships: the viewed units are
 used, the sponsorships due to expire are given back.  Every step touches one book, so the
 effect can be described book by book, whatever the order of the steps.
 */
module BlockDocs {
  import opened Basics
  import opened Collecting
  import opened Sponsorship
  import opened Books
  import opened SponsorIndex
  import opened DocumentValues

  datatype Progress = Progress(docs: Docs, pays: map<Hash, Payment>)

  // ----- The steps as the code makes them -----

  // None where the code throws.
  function UseStep(d: Docs, c: Chain, uri: Uri, dir: Direction, hash: Hash): Option<Progress> {
    if uri in d.books && !Ok(d.books[uri]) then None
    else
      match SetUsedAt(d, c, uri, c.length, dir, hash, "", false)
      case Failed(_) => None
      case Done(docs, pays) => Some(Progress(docs, pays))
  }

  // Using all viewed units; the same sponsorship must not be paid twice.
  function UseAll(d: Docs, c: Chain, uris: seq<Uri>, dir: Direction): Option<Progress> {
    if uris == [] then Some(Progress(d, map[]))
    else
      var before := UseAll(d, c, uris[..|uris| - 1], dir);
      if before.None? then None
      else
        var step := UseStep(before.value.docs, c, uris[|uris| - 1], dir, "");
        if step.None? || !(step.value.pays.Keys !! before.value.pays.Keys) then None
        else Some(Progress(step.value.docs, before.value.pays + step.value.pays))
  }

  function ExpireAll(d: Docs, c: Chain, due: seq<(Uri, Hash)>, dir: Direction): Option<Progress> {
    if due == [] then Some(Progress(d, map[]))
    else
      var before := ExpireAll(d, c, due[..|due| - 1], dir);
      if before.None? then None
      else
        var step := UseStep(before.value.docs, c, due[|due| - 1].0, dir, due[|due| - 1].1);
        if step.None? then None
        else Some(Progress(step.value.docs, before.value.pays + step.value.pays))
  }

  // ----- The effect book by book -----

  function MarkIf(it: Item, line: Option<Payment>, chosen: bool): Item {
    if chosen && line.Some? then it.(cancelled := true) else it
  }

  // The items of `hashes` that a scan at `t` finds are cancelled.
  function MarkSet(b: Book, t: int, hashes: set<Hash>): Book
    requires Ok(b)
  {
    if t > b.Last() then
      b.(items := seq(|b.items|, i requires 0 <= i < |b.items| =>
                        MarkIf(b.items[i], Line(b, i, t, b.items[i].hash), b.items[i].hash in hashes)))
    else b
  }

  function HashesOf(due: set<(Uri, Hash)>, uri: Uri): set<Hash> {
    set p | p in due && p.0 == uri :: p.1
  }

  function BookEffect(b: Book, t: int, used: bool, hashes: set<Hash>): Book
    requires Ok(b)
  {
    if used then Used(b, t) else MarkSet(b, t, hashes)
  }

  ghost predicate AllOk(d: Docs, t: int) {
    forall uri <- d.books :: Ok(d.books[uri]) && Fresh(d.books[uri], t)
  }

  ghost function Effect(d: Docs, t: int, used: set<Uri>, due: set<(Uri, Hash)>): Docs
    requires AllOk(d, t)
  {
    d.(books := map uri | uri in d.books :: BookEffect(d.books[uri], t, uri in used, HashesOf(due, uri)))
  }

  lemma MarkSetIsOk(b: Book, t: int, hashes: set<Hash>)
    requires Ok(b)
    ensures Ok(MarkSet(b, t, hashes)) && MarkSet(b, t, hashes).points == b.points
    ensures |MarkSet(b, t, hashes).items| == |b.items|
    ensures forall i :: 0 <= i < |b.items| ==>
              MarkSet(b, t, hashes).items[i].(cancelled := false) == b.items[i].(cancelled := false)
  {
    var b' := MarkSet(b, t, hashes);
    assert OpensWith(b, 0);
    forall i | 0 <= i < |b.items|
      ensures b'.items[i].(cancelled := false) == b.items[i].(cancelled := false) && OkItem(b'.items[i], |b'.points|)
    {
      assert OkItem(b.items[i], |b.points|);
    }
  }

  // Cancelling does not look at flags, so marked books pay what the book itself pays.
  lemma MarkedPaysTheSame(b: Book, t: int, hashes: set<Hash>, hash: Hash)
    requires Ok(b) && hash != ""
    ensures Ok(MarkSet(b, t, hashes)) && CancelPays(MarkSet(b, t, hashes), t, hash) == CancelPays(b, t, hash)
    ensures t > b.Last() ==> forall i :: 0 <= i < |b.items| ==> Line(MarkSet(b, t, hashes), i, t, hash) == Line(b, i, t, hash)
  {
    MarkSetIsOk(b, t, hashes);
    var b' := MarkSet(b, t, hashes);
    if t > b.Last() {
      forall i | 0 <= i < |b.items| ensures Line(b', i, t, hash) == Line(b, i, t, hash) {
        LineIgnoresFlags(b, b', t, hash, i);
      }
      assert Hashes(b') == Hashes(b);
      assert Lines(b', t, hash) == Lines(b, t, hash);
    }
  }

  lemma MarkOneMore(b: Book, t: int, hashes: set<Hash>, hash: Hash)
    requires Ok(b) && hash != ""
    ensures Ok(MarkSet(b, t, hashes))
    ensures Cancelled(MarkSet(b, t, hashes), t, hash, true) == MarkSet(b, t, hashes + {hash})
  {
    MarkedPaysTheSame(b, t, hashes, hash);
    if t > b.Last() {
      var b', c := MarkSet(b, t, hashes), MarkSet(b, t, hashes + {hash});
      forall i | 0 <= i < |b.items| ensures Mark(b'.items[i], Line(b', i, t, hash), true) == c.items[i] {
        if b.items[i].hash != hash { assert Line(b, i, t, hash).None?; }
      }
      assert Marked(b', t, hash, true).items == c.items;
    }
  }

  lemma MarkOneLess(b: Book, t: int, hashes: set<Hash>, hash: Hash)
    requires Ok(b) && hash != "" && hash in hashes
    requires forall i :: 0 <= i < |b.items| && b.items[i].hash == hash ==> !b.items[i].cancelled
    ensures Ok(MarkSet(b, t, hashes))
    ensures Cancelled(MarkSet(b, t, hashes), t, hash, false) == MarkSet(b, t, hashes - {hash})
    ensures hash in CancelPays(b, t, hash) ==> IsCancelled(MarkSet(b, t, hashes), hash)
  {
    MarkedPaysTheSame(b, t, hashes, hash);
    var b', c := MarkSet(b, t, hashes), MarkSet(b, t, hashes - {hash});
    if t > b.Last() {
      forall i | 0 <= i < |b.items| ensures Mark(b'.items[i], Line(b', i, t, hash), false) == c.items[i] {
        if b.items[i].hash != hash { assert Line(b, i, t, hash).None?; }
      }
      assert Marked(b', t, hash, false).items == c.items;
      if hash in CancelPays(b, t, hash) {
        var k := FindItem(b, t, hash);
        assert b'.items[k].hash == hash && b'.items[k].cancelled;
      }
    }
  }

  lemma NothingMarked(b: Book, t: int)
    requires Ok(b)
    ensures MarkSet(b, t, {}) == b
  {
    if t > b.Last() { assert MarkSet(b, t, {}).items == b.items; }
  }

  lemma NoEffect(d: Docs, t: int)
    requires AllOk(d, t)
    ensures Effect(d, t, {}, {}) == d
  {
    forall uri | uri in d.books ensures BookEffect(d.books[uri], t, false, HashesOf({}, uri)) == d.books[uri] {
      assert HashesOf({}, uri) == {};
      NothingMarked(d.books[uri], t);
    }
    assert Effect(d, t, {}, {}).books == d.books;
  }

  // ----- One step moves the effect by one element -----

  lemma EffectBooks(d: Docs, t: int, used: set<Uri>, due: set<(Uri, Hash)>, uri: Uri)
    requires AllOk(d, t) && uri in d.books
    ensures var e := Effect(d, t, used, due);
            && uri in e.books && Ok(e.books[uri])
            && e.books[uri] == BookEffect(d.books[uri], t, uri in used, HashesOf(due, uri))
  {
    UsedIsOk(d.books[uri], t);
    MarkSetIsOk(d.books[uri], t, HashesOf(due, uri));
  }

  lemma EffectWith(d: Docs, t: int, used: set<Uri>, due: set<(Uri, Hash)>, used': set<Uri>, due': set<(Uri, Hash)>, uri: Uri)
    requires AllOk(d, t)
    requires forall u :: u != uri ==> (u in used <==> u in used') && HashesOf(due, u) == HashesOf(due', u)
    ensures uri in d.books ==>
              WithBook(Effect(d, t, used, due), uri, BookEffect(d.books[uri], t, uri in used', HashesOf(due', uri)))
              == Effect(d, t, used', due')
    ensures uri !in d.books ==> Effect(d, t, used, due) == Effect(d, t, used', due')
  {
    var m, m' := Effect(d, t, used, due).books, Effect(d, t, used', due').books;
    forall u | u in d.books && u != uri ensures m[u] == m'[u] {
      assert u in used <==> u in used';
      assert HashesOf(due, u) == HashesOf(due', u);
    }
    DifferInOne(m, m', uri);
  }

  lemma DifferInOne<K, V>(m: map<K, V>, m': map<K, V>, k: K)
    requires m.Keys == m'.Keys && forall x <- m :: x != k ==> m[x] == m'[x]
    ensures k in m ==> m[k := m'[k]] == m'
    ensures k !in m ==> m == m'
  {}

  lemma HashesGrow(due: set<(Uri, Hash)>, uri: Uri, hash: Hash, u: Uri)
    ensures HashesOf(due + {(uri, hash)}, u) == if u == uri then HashesOf(due, u) + {hash} else HashesOf(due, u)
    ensures HashesOf(due - {(uri, hash)}, u) == if u == uri then HashesOf(due, u) - {hash} else HashesOf(due, u)
  {
    assert (uri, hash) in due + {(uri, hash)};
    forall h | h in HashesOf(due, u) ensures h in HashesOf(due + {(uri, hash)}, u) {
      assert (u, h) in due + {(uri, hash)};
    }
    forall h | h in HashesOf(due, u) && (u != uri || h != hash) ensures h in HashesOf(due - {(uri, hash)}, u) {
      assert (u, h) in due - {(uri, hash)};
    }
  }

  // A hash the scan does not find makes no difference.
  lemma MarkIrrelevant(b: Book, t: int, hashes: set<Hash>, hash: Hash)
    requires Ok(b) && hash != "" && hash !in CancelPays(b, t, hash)
    ensures MarkSet(b, t, hashes + {hash}) == MarkSet(b, t, hashes)
    ensures MarkSet(b, t, hashes - {hash}) == MarkSet(b, t, hashes)
  {
    if t > b.Last() {
      CancelPaysOne(b, t, hash);
      forall i | 0 <= i < |b.items| && b.items[i].hash == hash ensures Line(b, i, t, hash).None? {
        CollectsNothing(Hashes(b), Lines(b, t, hash), i);
      }
      assert MarkSet(b, t, hashes + {hash}).items == MarkSet(b, t, hashes).items;
      assert MarkSet(b, t, hashes - {hash}).items == MarkSet(b, t, hashes).items;
    }
  }

  function UsesPayOne(d: Docs, t: int, uri: Uri): map<Hash, Payment>
    requires uri in d.books ==> Ok(d.books[uri])
  {
    if uri in d.books then UsePays(d.books[uri], t) else map[]
  }

  lemma UseStepForward(d: Docs, c: Chain, t: int, used: set<Uri>, uri: Uri)
    requires AllOk(d, t) && t == c.Now() && uri !in used
    ensures UseStep(Effect(d, t, used, {}), c, uri, Forward, "")
            == Some(Progress(Effect(d, t, used + {uri}, {}), UsesPayOne(d, t, uri)))
  {
    EffectWith(d, t, used, {}, used + {uri}, {}, uri);
    if uri in d.books {
      EffectBooks(d, t, used, {}, uri);
      assert HashesOf({}, uri) == {};
      NothingMarked(d.books[uri], t);
    }
  }

  // What undoing that use reports.
  function UndoPaysOne(d: Docs, t: int, uri: Uri, sort: Sort): map<Hash, Payment>
    requires uri in d.books ==> Ok(d.books[uri]) && Fresh(d.books[uri], t)
  {
    if uri in d.books then UndoPays(d.books[uri], t, sort) else map[]
  }

  // After the last point, or with nothing to report.
  predicate Orderly(d: Docs, t: int, uri: Uri, sort: Sort)
    requires uri in d.books ==> Ok(d.books[uri]) && Fresh(d.books[uri], t)
  {
    uri in d.books ==> t > d.books[uri].Last() || UndoPays(d.books[uri], t, sort) == map[]
  }

  lemma OrderlyReports(d: Docs, t: int, uri: Uri, sort: Sort)
    requires uri in d.books ==> Ok(d.books[uri]) && Fresh(d.books[uri], t)
    ensures Orderly(d, t, uri, sort) <==> UndoPaysOne(d, t, uri, sort) == UsesPayOne(d, t, uri)
  {
    if uri in d.books && t > d.books[uri].Last() { LateUndoPays(d.books[uri], t, sort); }
  }

  // Undoing the use of a book, among whatever other books.
  lemma UnuseOnBook(e: Docs, c: Chain, b: Book, uri: Uri, sort: Sort)
    requires Ok(b) && Fresh(b, c.Now())
    requires uri in e.books && e.books[uri] == Used(b, c.Now())
    ensures UseStep(e, c, uri, Backward(sort), "") == Some(Progress(WithBook(e, uri, b), UndoPays(b, c.Now(), sort)))
  {
    UnuseBook(e, uri, b, c.Now(), sort);
    UnuseCall(e, c, uri, sort);
  }

  lemma UnuseCall(e: Docs, c: Chain, uri: Uri, sort: Sort)
    requires uri in e.books && Ok(e.books[uri])
    ensures UseStep(e, c, uri, Backward(sort), "") ==
            match UseBackward(e, uri, c.Now(), sort)
            case Failed(_) => None
            case Done(docs, pays) => Some(Progress(docs, pays))
  {
    assert c.TimeOf(c.length) == c.Now();
  }

  lemma UseStepBackward(d: Docs, c: Chain, t: int, used: set<Uri>, due: set<(Uri, Hash)>, uri: Uri, sort: Sort)
    requires AllOk(d, t) && t == c.Now() && uri in used && HashesOf(due, uri) == {}
    ensures UseStep(Effect(d, t, used, due), c, uri, Backward(sort), "")
            == Some(Progress(Effect(d, t, used - {uri}, due), UndoPaysOne(d, t, uri, sort)))
  {
    EffectWith(d, t, used, due, used - {uri}, due, uri);
    if uri in d.books {
      EffectBooks(d, t, used, due, uri);
      NothingMarked(d.books[uri], t);
      UnuseOnBook(Effect(d, t, used, due), c, d.books[uri], uri, sort);
    }
  }

  function ExpiryPays(d: Docs, t: int, p: (Uri, Hash)): map<Hash, Payment>
    requires p.0 in d.books ==> Ok(d.books[p.0])
  {
    if p.0 in d.books then CancelPays(d.books[p.0], t, p.1) else map[]
  }

  // The sponsorship can be given back now: it is found, open and not taken back by hand.
  predicate Open(d: Docs, t: int, p: (Uri, Hash))
    requires p.0 in d.books ==> Ok(d.books[p.0])
  {
    p.1 in ExpiryPays(d, t, p) ==>
      HasExpiry(d, p.1) && ExpiryOf(d, p.1).manuallyCancelled == 0 && !IsCancelled(d.books[p.0], p.1)
  }

  // One expiration on its book: the flag is moved and the payment is the book's own.
  function Moved(b: Book, t: int, hash: Hash, value: bool): Book
    requires Ok(b)
  {
    if hash in CancelPays(b, t, hash) then Cancelled(b, t, hash, value) else b
  }

  lemma MoveForward(b: Book, t: int, hashes: set<Hash>, hash: Hash)
    requires Ok(b) && hash != ""
    ensures Ok(MarkSet(b, t, hashes)) && CancelPays(MarkSet(b, t, hashes), t, hash) == CancelPays(b, t, hash)
    ensures Moved(MarkSet(b, t, hashes), t, hash, true) == MarkSet(b, t, hashes + {hash})
    ensures IsCancelled(b, hash) ==> IsCancelled(MarkSet(b, t, hashes), hash)
  {
    MarkedPaysTheSame(b, t, hashes, hash);
    if hash in CancelPays(b, t, hash) { MarkOneMore(b, t, hashes, hash); } else { MarkIrrelevant(b, t, hashes, hash); }
    if IsCancelled(b, hash) {
      var i :| 0 <= i < |b.items| && b.items[i].hash == hash && b.items[i].cancelled;
      assert MarkSet(b, t, hashes).items[i].cancelled && MarkSet(b, t, hashes).items[i].hash == hash;
    }
  }

  lemma MoveBackward(b: Book, t: int, hashes: set<Hash>, hash: Hash)
    requires Ok(b) && hash != "" && hash in hashes
    requires hash in CancelPays(b, t, hash) ==> !IsCancelled(b, hash)
    ensures Ok(MarkSet(b, t, hashes)) && CancelPays(MarkSet(b, t, hashes), t, hash) == CancelPays(b, t, hash)
    ensures Moved(MarkSet(b, t, hashes), t, hash, false) == MarkSet(b, t, hashes - {hash})
    ensures hash in CancelPays(b, t, hash) ==> IsCancelled(MarkSet(b, t, hashes), hash)
  {
    MarkedPaysTheSame(b, t, hashes, hash);
    if hash in CancelPays(b, t, hash) { MarkOneLess(b, t, hashes, hash); } else { MarkIrrelevant(b, t, hashes, hash); }
  }

  lemma StepOnBook(e: Docs, c: Chain, uri: Uri, dir: Direction, hash: Hash)
    requires uri in e.books && Ok(e.books[uri]) && hash != ""
    ensures var b, t := e.books[uri], c.Now(); var r := UseStep(e, c, uri, dir, hash);
            && (r.Some? ==> r.value == Progress(WithBook(e, uri, Moved(b, t, hash, dir.Forward?)), CancelPays(b, t, hash)))
            && (r.Some? <==> (hash in CancelPays(b, t, hash) ==>
                  HasExpiry(e, hash) && ExpiryOf(e, hash).manuallyCancelled == 0 && IsCancelled(b, hash) == dir.Backward?))
  {
    CancelPaysOne(e.books[uri], c.Now(), hash);
    assert e.books[uri := e.books[uri]] == e.books;
  }

  lemma ExpireStepForward(d: Docs, c: Chain, t: int, used: set<Uri>, due: set<(Uri, Hash)>, p: (Uri, Hash))
    requires AllOk(d, t) && t == c.Now() && p.0 !in used && p.1 != ""
    requires UseStep(Effect(d, t, used, due), c, p.0, Forward, p.1).Some?
    ensures UseStep(Effect(d, t, used, due), c, p.0, Forward, p.1)
            == Some(Progress(Effect(d, t, used, due + {p}), ExpiryPays(d, t, p)))
    ensures Open(d, t, p)
  {
    var (uri, hash) := p;
    forall u ensures HashesOf(due + {p}, u) == if u == uri then HashesOf(due, u) + {hash} else HashesOf(due, u) {
      HashesGrow(due, uri, hash, u);
    }
    EffectWith(d, t, used, due, used, due + {p}, uri);
    if uri in d.books {
      EffectBooks(d, t, used, due, uri);
      MoveForward(d.books[uri], t, HashesOf(due, uri), hash);
      StepOnBook(Effect(d, t, used, due), c, uri, Forward, hash);
    }
  }

  lemma ExpireStepBackward(d: Docs, c: Chain, t: int, due: set<(Uri, Hash)>, p: (Uri, Hash), sort: Sort)
    requires AllOk(d, t) && t == c.Now() && p in due && p.1 != "" && Open(d, t, p)
    ensures UseStep(Effect(d, t, {}, due), c, p.0, Backward(sort), p.1)
            == Some(Progress(Effect(d, t, {}, due - {p}), ExpiryPays(d, t, p)))
  {
    var (uri, hash) := p;
    forall u ensures HashesOf(due - {p}, u) == if u == uri then HashesOf(due, u) - {hash} else HashesOf(due, u) {
      HashesGrow(due, uri, hash, u);
    }
    EffectWith(d, t, {}, due, {}, due - {p}, uri);
    if uri in d.books {
      EffectBooks(d, t, {}, due, uri);
      assert hash in HashesOf(due, uri);
      MoveBackward(d.books[uri], t, HashesOf(due, uri), hash);
      StepOnBook(Effect(d, t, {}, due), c, uri, Backward(sort), hash);
    }
  }

  // ----- All steps -----

  function Elements<T>(s: seq<T>): set<T> { set x | x in s }

  lemma ElementsOfPrefix<T>(s: seq<T>)
    requires s != [] && Distinct(s)
    ensures Elements(s) == Elements(s[..|s| - 1]) + {s[|s| - 1]}
    ensures s[|s| - 1] !in Elements(s[..|s| - 1]) && Distinct(s[..|s| - 1])
  {
    assert s == s[..|s| - 1] + [s[|s| - 1]];
  }

  function UsesPay(d: Docs, t: int, uris: seq<Uri>): map<Hash, Payment>
    requires forall u <- uris :: u in d.books ==> Ok(d.books[u])
  {
    if uris == [] then map[]
    else
      assert uris[|uris| - 1] in uris;
      UsesPay(d, t, uris[..|uris| - 1]) + UsesPayOne(d, t, uris[|uris| - 1])
  }

  lemma {:induction false} UseAllForward(d: Docs, c: Chain, t: int, uris: seq<Uri>)
    requires AllOk(d, t) && t == c.Now() && Distinct(uris) && UseAll(d, c, uris, Forward).Some?
    ensures UseAll(d, c, uris, Forward) == Some(Progress(Effect(d, t, Elements(uris), {}), UsesPay(d, t, uris)))
  {
    if uris == [] {
      NoEffect(d, t);
      assert Elements(uris) == {};
    } else {
      ElementsOfPrefix(uris);
      UseAllForward(d, c, t, uris[..|uris| - 1]);
      UseStepForward(d, c, t, Elements(uris[..|uris| - 1]), uris[|uris| - 1]);
    }
  }

  ghost predicate AllOrderly(d: Docs, t: int, uris: seq<Uri>, sort: Sort)
    requires AllOk(d, t)
  {
    forall u <- uris :: Orderly(d, t, u, sort)
  }

  lemma {:induction false} UseAllBackward(d: Docs, c: Chain, t: int, used: set<Uri>, due: set<(Uri, Hash)>, uris: seq<Uri>, sort: Sort)
    requires AllOk(d, t) && t == c.Now() && Distinct(uris) && Elements(uris) <= used && AllOrderly(d, t, uris, sort)
    requires forall u <- uris :: HashesOf(due, u) == {}
    requires UseAll(d, c, uris, Forward).Some?
    ensures UseAll(Effect(d, t, used, due), c, uris, Backward(sort))
            == Some(Progress(Effect(d, t, used - Elements(uris), due), UsesPay(d, t, uris)))
  {
    if uris == [] {
      assert used - Elements(uris) == used;
    } else {
      var init, last := uris[..|uris| - 1], uris[|uris| - 1];
      ElementsOfPrefix(uris);
      assert last in uris;
      UseAllBackward(d, c, t, used, due, init, sort);
      UseAllForward(d, c, t, init);
      UseStepForward(d, c, t, Elements(init), last);
      UseStepBackward(d, c, t, used - Elements(init), due, last, sort);
      OrderlyReports(d, t, last, sort);
      assert used - Elements(init) - {last} == used - Elements(uris);
    }
  }

  function ExpiriesPay(d: Docs, t: int, due: seq<(Uri, Hash)>): map<Hash, Payment>
    requires forall p <- due :: p.0 in d.books ==> Ok(d.books[p.0])
  {
    if due == [] then map[]
    else
      assert due[|due| - 1] in due;
      ExpiriesPay(d, t, due[..|due| - 1]) + ExpiryPays(d, t, due[|due| - 1])
  }

  ghost predicate Nameable(due: seq<(Uri, Hash)>) {
    forall p <- due :: p.1 != ""
  }

  lemma {:induction false} ExpireAllForward(d: Docs, c: Chain, t: int, used: set<Uri>, due: seq<(Uri, Hash)>)
    requires AllOk(d, t) && t == c.Now() && Distinct(due) && Nameable(due)
    requires forall p <- due :: p.0 !in used
    requires ExpireAll(Effect(d, t, used, {}), c, due, Forward).Some?
    ensures ExpireAll(Effect(d, t, used, {}), c, due, Forward)
            == Some(Progress(Effect(d, t, used, Elements(due)), ExpiriesPay(d, t, due)))
    ensures forall p <- due :: Open(d, t, p)
  {
    if due == [] {
      assert Elements(due) == {};
    } else {
      var init, last := due[..|due| - 1], due[|due| - 1];
      ElementsOfPrefix(due);
      assert last in due;
      ExpireAllForward(d, c, t, used, init);
      ExpireStepForward(d, c, t, used, Elements(init), last);
      assert due == init + [last];
    }
  }

  lemma {:induction false} ExpireAllBackward(d: Docs, c: Chain, t: int, all: set<(Uri, Hash)>, due: seq<(Uri, Hash)>, sort: Sort)
    requires AllOk(d, t) && t == c.Now() && Distinct(due) && Nameable(due) && Elements(due) <= all
    requires forall p <- due :: Open(d, t, p)
    ensures ExpireAll(Effect(d, t, {}, all), c, due, Backward(sort))
            == Some(Progress(Effect(d, t, {}, all - Elements(due)), ExpiriesPay(d, t, due)))
  {
    if due == [] {
      assert all - Elements(due) == all;
    } else {
      var init, last := due[..|due| - 1], due[|due| - 1];
      ElementsOfPrefix(due);
      assert last in due;
      ExpireAllBackward(d, c, t, all, init, sort);
      ExpireStepBackward(d, c, t, all - Elements(init), last, sort);
      assert all - Elements(init) - {last} == all - Elements(due);
    }
  }

  // The payments of expirations do not depend on the order they are taken in.
  lemma {:induction false} ExpiriesPayHas(d: Docs, t: int, due: seq<(Uri, Hash)>, hash: Hash)
    requires AllOk(d, t) && Nameable(due)
    requires forall p, q :: p in due && q in due && p.1 == q.1 ==> p == q
    ensures hash in ExpiriesPay(d, t, due) <==> exists p <- due :: p.1 == hash && hash in ExpiryPays(d, t, p)
    ensures forall p <- due :: p.1 == hash && hash in ExpiryPays(d, t, p) ==>
              ExpiriesPay(d, t, due)[hash] == ExpiryPays(d, t, p)[hash]
  {
    if due == [] {
    } else {
      var init, last := due[..|due| - 1], due[|due| - 1];
      assert due == init + [last];
      ExpiriesPayHas(d, t, init, hash);
      if last.0 in d.books { CancelPaysOne(d.books[last.0], t, last.1); }
      if hash in ExpiryPays(d, t, last) {
        assert last.1 == hash && last in due;
      }
    }
  }

  lemma ExpiriesAgree(d: Docs, t: int, due: seq<(Uri, Hash)>, due': seq<(Uri, Hash)>)
    requires AllOk(d, t) && Nameable(due) && Nameable(due') && Elements(due) == Elements(due')
    requires forall p, q :: p in due && q in due && p.1 == q.1 ==> p == q
    ensures ExpiriesPay(d, t, due) == ExpiriesPay(d, t, due')
  {
    assert forall p :: p in due <==> p in Elements(due);
    assert forall p :: p in due' <==> p in Elements(due');
    var m, m' := ExpiriesPay(d, t, due), ExpiriesPay(d, t, due');
    forall hash ensures hash in m <==> hash in m' {
      ExpiriesPayHas(d, t, due, hash);
      ExpiriesPayHas(d, t, due', hash);
    }
    forall hash | hash in m ensures m[hash] == m'[hash] {
      ExpiriesPayHas(d, t, due, hash);
      ExpiriesPayHas(d, t, due', hash);
      var p :| p in due && p.1 == hash && hash in ExpiryPays(d, t, p);
    }
    assert m.Keys == m'.Keys;
  }

  // ----- One block, there and back -----

  // A listing of what the block has to expire, without the units viewed in it.
  ghost predicate DueList(d: Docs, block: nat, viewed: seq<Uri>, due: seq<(Uri, Hash)>) {
    && Distinct(due)
    && forall uri, hash :: (uri, hash) in due <==> Due(d, block, uri, hash) && uri !in viewed
  }

  lemma {:induction false} ListDue(row: map<Hash, Expiry>, d: Docs, block: nat, viewed: seq<Uri>) returns (due: seq<(Uri, Hash)>)
    requires block in d.expiring && forall h <- row :: h in d.expiring[block] && row[h] == d.expiring[block][h]
    ensures Distinct(due)
    ensures forall uri, hash :: (uri, hash) in due <==> hash in row && Due(d, block, uri, hash) && uri !in viewed
    decreases row.Keys
  {
    due := [];
    if row == map[] {
    } else {
      var h :| h in row;
      var rest := row - {h};
      due := ListDue(rest, d, block, viewed);
      forall p | p in due ensures p.1 != h { assert (p.0, p.1) in due; }
      if row[h].manuallyCancelled == 0 && row[h].uri !in viewed { due := due + [(row[h].uri, h)]; }
    }
  }

  lemma SomeDueList(d: Docs, block: nat, viewed: seq<Uri>)
    ensures exists due :: DueList(d, block, viewed, due)
  {
    var due := [];
    if block in d.expiring { due := ListDue(d.expiring[block], d, block, viewed); }
    assert DueList(d, block, viewed, due);
  }

  // One of the listings; which one makes no difference.
  ghost function Listing(d: Docs, block: nat, viewed: seq<Uri>): (due: seq<(Uri, Hash)>)
    ensures DueList(d, block, viewed, due)
  {
    SomeDueList(d, block, viewed);
    var due :| DueList(d, block, viewed, due);
    due
  }

  // Uses first, then expirations.
  function GrantDocs(d: Docs, c: Chain, viewed: seq<Uri>, due: seq<(Uri, Hash)>, dir: Direction): Option<(Progress, Progress)> {
    var uses := UseAll(d, c, viewed, dir);
    if uses.None? then None
    else
      var expiries := ExpireAll(uses.value.docs, c, due, dir);
      if expiries.None? then None else Some((uses.value, expiries.value))
  }

  lemma DueFacts(d: Docs, block: nat, viewed: seq<Uri>, due: seq<(Uri, Hash)>)
    requires OkTable(d) && DueList(d, block, viewed, due)
    ensures Nameable(due)
    ensures forall p, q :: p in due && q in due && p.1 == q.1 ==> p == q
    ensures forall p <- due :: p.0 !in viewed
  {
    forall p | p in due ensures p.1 != "" && p.0 !in viewed && Due(d, block, p.0, p.1) {
      assert (p.0, p.1) in due;
      assert OkRow(d, block, p.1);
    }
    forall p, q | p in due && q in due && p.1 == q.1 ensures p == q {
      assert Due(d, block, p.0, p.1) && Due(d, block, q.0, q.1);
    }
  }

  lemma GrantForward(d: Docs, c: Chain, t: int, viewed: seq<Uri>, due: seq<(Uri, Hash)>)
    requires AllOk(d, t) && t == c.Now() && Distinct(viewed) && Distinct(due) && Nameable(due)
    requires forall p <- due :: p.0 !in viewed
    requires GrantDocs(d, c, viewed, due, Forward).Some?
    ensures GrantDocs(d, c, viewed, due, Forward).value.0 == Progress(Effect(d, t, Elements(viewed), {}), UsesPay(d, t, viewed))
    ensures GrantDocs(d, c, viewed, due, Forward).value.1 ==
            Progress(Effect(d, t, Elements(viewed), Elements(due)), ExpiriesPay(d, t, due))
    ensures forall p <- due :: Open(d, t, p)
  {
    UseAllForward(d, c, t, viewed);
    ExpireAllForward(d, c, t, Elements(viewed), due);
  }

  lemma UnmarkedStaysOpen(b: Book, t: int, hashes: set<Hash>, hash: Hash)
    requires Ok(b) && hash !in hashes && !IsCancelled(b, hash)
    ensures !IsCancelled(MarkSet(b, t, hashes), hash)
  {
    MarkSetIsOk(b, t, hashes);
  }

  // What can be given back can be given back after others.
  lemma OpenExpires(d: Docs, c: Chain, t: int, used: set<Uri>, due: set<(Uri, Hash)>, p: (Uri, Hash))
    requires AllOk(d, t) && t == c.Now() && p.0 !in used && p.1 != "" && p !in due && Open(d, t, p)
    ensures UseStep(Effect(d, t, used, due), c, p.0, Forward, p.1).Some?
  {
    var (uri, hash) := p;
    if uri in d.books {
      EffectBooks(d, t, used, due, uri);
      MarkedPaysTheSame(d.books[uri], t, HashesOf(due, uri), hash);
      StepOnBook(Effect(d, t, used, due), c, uri, Forward, hash);
      if hash in CancelPays(d.books[uri], t, hash) { UnmarkedStaysOpen(d.books[uri], t, HashesOf(due, uri), hash); }
    }
  }

  lemma {:induction false} OpenAllExpire(d: Docs, c: Chain, t: int, used: set<Uri>, due: seq<(Uri, Hash)>)
    requires AllOk(d, t) && t == c.Now() && Distinct(due) && Nameable(due)
    requires forall p <- due :: p.0 !in used && Open(d, t, p)
    ensures ExpireAll(Effect(d, t, used, {}), c, due, Forward).Some?
  {
    if due == [] {
    } else {
      var init, last := due[..|due| - 1], due[|due| - 1];
      ElementsOfPrefix(due);
      assert last in due;
      OpenAllExpire(d, c, t, used, init);
      ExpireAllForward(d, c, t, used, init);
      OpenExpires(d, c, t, used, Elements(init), last);
    }
  }

  lemma SameDueElements(d: Docs, block: nat, viewed: seq<Uri>, due: seq<(Uri, Hash)>, due': seq<(Uri, Hash)>)
    requires DueList(d, block, viewed, due) && DueList(d, block, viewed, due')
    ensures Elements(due) == Elements(due') && forall p :: p in due <==> p in due'
  {
    forall p ensures p in due <==> p in due' { assert (p.0, p.1) == p; }
  }

  // Any other listing of what is due succeeds as well, with the same documents and payments.
  lemma ListingIsIrrelevant(d: Docs, c: Chain, t: int, viewed: seq<Uri>, due: seq<(Uri, Hash)>, due': seq<(Uri, Hash)>)
    requires AllOk(d, t) && t == c.Now() && Distinct(viewed) && OkTable(d)
    requires DueList(d, c.length, viewed, due) && DueList(d, c.length, viewed, due')
    requires GrantDocs(d, c, viewed, due, Forward).Some?
    ensures GrantDocs(d, c, viewed, due', Forward) == GrantDocs(d, c, viewed, due, Forward)
  {
    DueFacts(d, c.length, viewed, due);
    DueFacts(d, c.length, viewed, due');
    SameDueElements(d, c.length, viewed, due, due');
    GrantForward(d, c, t, viewed, due);
    OpenAllExpire(d, c, t, Elements(viewed), due');
    GrantForward(d, c, t, viewed, due');
    ExpiriesAgree(d, t, due, due');
  }

  // Undoing the block's grants restores every book, flag and time point, and reports the
  // same payments, whatever order the expirations are listed in.
  lemma GrantBackward(d: Docs, c: Chain, t: int, viewed: seq<Uri>, due: seq<(Uri, Hash)>, due': seq<(Uri, Hash)>, sort: Sort)
    requires AllOk(d, t) && t == c.Now() && Distinct(viewed) && AllOrderly(d, t, viewed, sort)
    requires Distinct(due) && Distinct(due') && Nameable(due) && Nameable(due') && Elements(due) == Elements(due')
    requires forall p, q :: p in due && q in due && p.1 == q.1 ==> p == q
    requires forall p <- due :: p.0 !in viewed
    requires GrantDocs(d, c, viewed, due, Forward).Some?
    ensures var there := GrantDocs(d, c, viewed, due, Forward).value;
            var back := GrantDocs(there.1.docs, c, viewed, due', Backward(sort));
            && back.Some? && back.value.1.docs == d
            && back.value.0.pays == there.0.pays && back.value.1.pays == there.1.pays
  {
    GrantForward(d, c, t, viewed, due);
    var all := Elements(due);
    forall u | u in viewed ensures HashesOf(all, u) == {} {
      assert forall p <- all :: p in due && p.0 != u;
    }
    UseAllBackward(d, c, t, Elements(viewed), all, viewed, sort);
    assert Elements(viewed) - Elements(viewed) == {};
    forall p | p in due' ensures Open(d, t, p) { assert p in Elements(due'); assert p in due; }
    ExpireAllBackward(d, c, t, all, due', sort);
    assert all - Elements(due') == {};
    NoEffect(d, t);
    ExpiriesAgree(d, t, due, due');
  }

  // What a block does to the documents.
  lemma GrantEffect(d: Docs, c: Chain, viewed: seq<Uri>, due: seq<(Uri, Hash)>)
    requires AllOk(d, c.Now()) && OkTable(d) && Distinct(viewed) && DueList(d, c.length, viewed, due)
    requires GrantDocs(d, c, viewed, due, Forward).Some?
    ensures GrantDocs(d, c, viewed, due, Forward).value.1.docs == Effect(d, c.Now(), Elements(viewed), Elements(due))
  {
    DueFacts(d, c.length, viewed, due);
    GrantForward(d, c, c.Now(), viewed, due);
  }

  lemma DueAfter(d: Docs, d': Docs, block: nat, viewed: seq<Uri>, due: seq<(Uri, Hash)>, due': seq<(Uri, Hash)>)
    requires OkTable(d) && d'.expiring == d.expiring
    requires DueList(d, block, viewed, due) && DueList(d', block, viewed, due')
    ensures Elements(due) == Elements(due') && Nameable(due')
  {
    DueFacts(d, block, viewed, due);
    forall p ensures p in due <==> p in due' {
      assert (p.0, p.1) == p;
      assert Due(d, block, p.0, p.1) <==> Due(d', block, p.0, p.1);
    }
  }

  // The same, with what is due listed once before and once after the block.
  lemma GrantDocsThereAndBack(d: Docs, c: Chain, viewed: seq<Uri>, due: seq<(Uri, Hash)>, due': seq<(Uri, Hash)>, sort: Sort)
    requires AllOk(d, c.Now()) && OkTable(d) && Distinct(viewed) && AllOrderly(d, c.Now(), viewed, sort)
    requires DueList(d, c.length, viewed, due) && GrantDocs(d, c, viewed, due, Forward).Some?
    requires DueList(GrantDocs(d, c, viewed, due, Forward).value.1.docs, c.length, viewed, due')
    ensures var there := GrantDocs(d, c, viewed, due, Forward).value;
            var back := GrantDocs(there.1.docs, c, viewed, due', Backward(sort));
            && there.1.docs.expiring == d.expiring && there.1.docs.blockOf == d.blockOf
            && back.Some? && back.value.1.docs == d
            && back.value.0.pays == there.0.pays && back.value.1.pays == there.1.pays
  {
    GrantEffect(d, c, viewed, due);
    DueFacts(d, c.length, viewed, due);
    DueAfter(d, GrantDocs(d, c, viewed, due, Forward).value.1.docs, c.length, viewed, due, due');
    GrantBackward(d, c, c.Now(), viewed, due, due', sort);
  }
}
