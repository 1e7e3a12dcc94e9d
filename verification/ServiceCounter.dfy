/**
 Counting served files: what a client reports about a session is counted at most once, even
 after the record about it was dropped.
 */
module ServiceCounters {
  import opened Basics

  datatype Unit = Unit(file: Uri, unit: Uri, peer: Address)

  datatype Record = Record(session: Hash, time: int, seconds: nat)

  // Too old to be reported; the same test drops a record and refuses a report.
  predicate Expired(r: Record, now: int) {
    r.time + r.seconds <= now - NODES_TIME_SHIFT
  }

  // ----- Reports -----

  datatype Count = Count(peer: Address, count: nat)

  datatype FileItem = FileItem(file: Uri, unit: Uri, counts: seq<Count>)

  function UnitOf(item: FileItem, c: Count): Unit {
    Unit(item.file, item.unit, c.peer)
  }

  function SumCounts(counts: seq<Count>): nat {
    if counts == [] then 0 else SumCounts(counts[..|counts| - 1]) + counts[|counts| - 1].count
  }

  function SumReport(items: seq<FileItem>): nat {
    if items == [] then 0 else SumReport(items[..|items| - 1]) + SumCounts(items[|items| - 1].counts)
  }

  ghost predicate Lists(items: seq<FileItem>, u: Unit, n: nat) {
    exists k, m :: 0 <= k < |items| && 0 <= m < |items[k].counts| && UnitOf(items[k], items[k].counts[m]) == u
                   && items[k].counts[m].count == n
  }

  // One item for each pair of uris, and the index knows where it is.
  ghost predicate OkIndex(items: seq<FileItem>, index: map<(Uri, Uri), nat>) {
    && (forall k :: 0 <= k < |items| ==> (items[k].unit, items[k].file) in index && index[(items[k].unit, items[k].file)] == k)
    && forall key <- index :: index[key] < |items| && (items[index[key]].unit, items[index[key]].file) == key
  }

  // The report lists exactly the counts in `done`.
  ghost predicate Reports(items: seq<FileItem>, done: map<Unit, nat>) {
    && (forall u <- done :: Lists(items, u, done[u]))
    && (forall k, m :: 0 <= k < |items| && 0 <= m < |items[k].counts| ==>
          UnitOf(items[k], items[k].counts[m]) in done && done[UnitOf(items[k], items[k].counts[m])] == items[k].counts[m].count)
    && forall k, m, n :: 0 <= k < |items| && 0 <= m < n < |items[k].counts| ==> items[k].counts[m].peer != items[k].counts[n].peer
  }

  function WithCount(items: seq<FileItem>, k: nat, c: Count): seq<FileItem>
    requires k < |items|
  {
    items[k := items[k].(counts := items[k].counts + [c])]
  }

  lemma {:induction false} SumWithCount(items: seq<FileItem>, k: nat, c: Count)
    requires k < |items|
    ensures SumReport(WithCount(items, k, c)) == SumReport(items) + c.count
    decreases |items|
  {
    var init := items[..|items| - 1];
    if k == |items| - 1 {
      assert (items[k].counts + [c])[..|items[k].counts|] == items[k].counts;
      assert WithCount(items, k, c)[..k] == init;
    } else {
      SumWithCount(init, k, c);
      assert WithCount(items, k, c)[..|items| - 1] == WithCount(init, k, c);
    }
  }

  lemma ReportsMore(items: seq<FileItem>, done: map<Unit, nat>, k: nat, u: Unit, n: nat)
    requires Reports(items, done) && k < |items| && u !in done && items[k].file == u.file && items[k].unit == u.unit
    ensures Reports(WithCount(items, k, Count(u.peer, n)), done[u := n])
  {
    var items', done' := WithCount(items, k, Count(u.peer, n)), done[u := n];
    forall v | v in done' ensures Lists(items', v, done'[v]) {
      if v == u {
        assert UnitOf(items'[k], items'[k].counts[|items[k].counts|]) == u;
      } else {
        var j, m :| 0 <= j < |items| && 0 <= m < |items[j].counts| && UnitOf(items[j], items[j].counts[m]) == v
                    && items[j].counts[m].count == done[v];
        assert items'[j].counts[m] == items[j].counts[m] && UnitOf(items'[j], items'[j].counts[m]) == v;
      }
    }
    forall m | 0 <= m < |items[k].counts| ensures items[k].counts[m].peer != u.peer {
      assert UnitOf(items[k], items[k].counts[m]) in done;
    }
  }

  lemma EmptyItem(items: seq<FileItem>, done: map<Unit, nat>, item: FileItem)
    requires Reports(items, done) && item.counts == []
    ensures Reports(items + [item], done) && SumReport(items + [item]) == SumReport(items)
  {
    var items' := items + [item];
    assert items'[..|items|] == items;
    forall v | v in done ensures Lists(items', v, done[v]) {
      var j, m :| 0 <= j < |items| && 0 <= m < |items[j].counts| && UnitOf(items[j], items[j].counts[m]) == v
                  && items[j].counts[m].count == done[v];
      assert items'[j] == items[j] && UnitOf(items'[j], items'[j].counts[m]) == v;
    }
  }

  lemma IndexAppended(items: seq<FileItem>, index: map<(Uri, Uri), nat>, item: FileItem)
    requires OkIndex(items, index) && (item.unit, item.file) !in index
    ensures OkIndex(items + [item], index[(item.unit, item.file) := |items|])
  {
    var key := (item.unit, item.file);
    var items', index' := items + [item], index[key := |items|];
    forall k | 0 <= k < |items'| ensures (items'[k].unit, items'[k].file) in index' && index'[(items'[k].unit, items'[k].file)] == k {
      if k < |items| { assert items'[k] == items[k] && (items[k].unit, items[k].file) in index; }
    }
  }

  // The item of the unit's uris; a new one if there is none.
  method ItemOf(items: seq<FileItem>, index: map<(Uri, Uri), nat>, u: Unit)
    returns (items': seq<FileItem>, index': map<(Uri, Uri), nat>, k: nat)
    requires OkIndex(items, index)
    ensures OkIndex(items', index') && k < |items'| && items'[k].file == u.file && items'[k].unit == u.unit
    ensures items' == items || items' == items + [FileItem(u.file, u.unit, [])]
  {
    items', index' := items, index;
    var key := (u.unit, u.file);
    if key !in index {
      IndexAppended(items, index, FileItem(u.file, u.unit, []));
      index' := index[key := |items|];
      items' := items + [FileItem(u.file, u.unit, [])];
    }
    k := index'[key];
    assert (items'[k].unit, items'[k].file) == key;
  }

  // Adds the count of one unit to the item of its uris.
  method AddCount(items: seq<FileItem>, index: map<(Uri, Uri), nat>, u: Unit, n: nat, ghost done: map<Unit, nat>)
    returns (items': seq<FileItem>, index': map<(Uri, Uri), nat>)
    requires OkIndex(items, index) && Reports(items, done) && u !in done
    ensures OkIndex(items', index') && Reports(items', done[u := n]) && SumReport(items') == SumReport(items) + n
  {
    var k;
    items', index', k := ItemOf(items, index, u);
    EmptyItem(items, done, FileItem(u.file, u.unit, []));
    SumWithCount(items', k, Count(u.peer, n));
    ReportsMore(items', done, k, u, n);
    IndexKept(items', index', k, Count(u.peer, n));
    items' := WithCount(items', k, Count(u.peer, n));
  }

  lemma IndexKept(items: seq<FileItem>, index: map<(Uri, Uri), nat>, k: nat, c: Count)
    requires OkIndex(items, index) && k < |items|
    ensures OkIndex(WithCount(items, k, c), index)
  {}

  // ----- One unit -----

  function Uncounted(records: map<Record, bool>): set<Record> {
    set r | r in records && !records[r]
  }

  function Kept(records: map<Record, bool>, now: int): map<Record, bool> {
    map r | r in records && !Expired(r, now) :: true
  }

  // Counts what was not counted yet and drops what is too old.
  method CountRecords(records: map<Record, bool>, now: int) returns (records': map<Record, bool>, count: nat)
    ensures records' == Kept(records, now) && count == |Uncounted(records)|
  {
    records', count := records, 0;
    ghost var seen: set<Record> := {};
    var rest := records.Keys;
    while rest != {}
      invariant rest <= records.Keys && seen == set r | r in Uncounted(records) && r !in rest
      invariant count == |seen|
      invariant forall r :: r in records' <==> r in records && (r in rest || !Expired(r, now))
      invariant forall r <- records' :: records'[r] == if r in rest then records[r] else true
      decreases rest
    {
      var r :| r in rest;
      if !records'[r] {
        count := count + 1;
        records' := records'[r := true];
        seen := seen + {r};
      }
      if Expired(r, now) { records' := records' - {r}; }
      rest := rest - {r};
    }
    assert seen == Uncounted(records);
  }

  // ----- The counter -----

  type Served = map<Unit, map<Record, bool>>

  function Pairs(u: Unit, records: set<Record>): set<(Unit, Record)> {
    set r | r in records :: (u, r)
  }

  lemma {:induction false} PairsCount(u: Unit, records: set<Record>)
    ensures |Pairs(u, records)| == |records|
  {
    if records != {} {
      var r :| r in records;
      PairsCount(u, records - {r});
      assert Pairs(u, records) == Pairs(u, records - {r}) + {(u, r)};
    }
  }

  // What a report counts: for every unit with new records, how many.
  function NewCounts(served: Served, units: set<Unit>): map<Unit, nat> {
    map u | u in units && u in served && Uncounted(served[u]) != {} :: |Uncounted(served[u])|
  }

  function NewPairs(served: Served, units: set<Unit>): set<(Unit, Record)> {
    set u, r | u in units && u in served && r in Uncounted(served[u]) :: (u, r)
  }

  function KeptUnits(served: Served, units: set<Unit>, now: int): Served {
    map u | u in served && (u in units ==> Kept(served[u], now) != map[]) ::
      if u in units then Kept(served[u], now) else served[u]
  }

  lemma CountsMore(served: Served, units: set<Unit>, u: Unit)
    requires u in served && u !in units
    ensures NewCounts(served, units + {u}) ==
            if Uncounted(served[u]) != {} then NewCounts(served, units)[u := |Uncounted(served[u])|] else NewCounts(served, units)
  {}

  lemma PairsMore(served: Served, units: set<Unit>, u: Unit)
    requires u in served && u !in units
    ensures |NewPairs(served, units + {u})| == |NewPairs(served, units)| + |Uncounted(served[u])|
  {
    var more := Pairs(u, Uncounted(served[u]));
    PairsCount(u, Uncounted(served[u]));
    assert NewPairs(served, units + {u}) == NewPairs(served, units) + more;
    assert NewPairs(served, units) !! more;
  }

  lemma UnitKept(served: Served, units: set<Unit>, u: Unit, now: int)
    requires u in served && u !in units
    ensures u in KeptUnits(served, units, now) && KeptUnits(served, units, now)[u] == served[u]
    ensures KeptUnits(served, units + {u}, now) ==
            if Kept(served[u], now) == map[] then KeptUnits(served, units, now) - {u}
            else KeptUnits(served, units, now)[u := Kept(served[u], now)]
  {}

  // A record is kept until its seconds, and the tolerance, are over.
  lemma WhoIsKept(served: Served, now: int)
    ensures var kept := KeptUnits(served, served.Keys, now);
            forall u, r :: u in kept && r in kept[u] <==>
              u in served && r in served[u] && now < r.time + r.seconds + NODES_TIME_SHIFT
  {
    var kept := KeptUnits(served, served.Keys, now);
    forall u, r | u in served && r in served[u] && now < r.time + r.seconds + NODES_TIME_SHIFT ensures u in kept && r in kept[u] {
      assert r in Kept(served[u], now);
    }
  }

  // What was counted is either still marked, or too old to come back.
  ghost predicate Marked(served: Served, counted: set<(Unit, Record)>, clock: int) {
    && (forall u, r :: u in served && r in served[u] ==> (served[u][r] <==> (u, r) in counted))
    && forall u, r :: (u, r) in counted && !(u in served && r in served[u]) ==> Expired(r, clock)
  }

  // All that is counted is new, and stays marked or is too old.
  lemma MarkedAfter(served: Served, counted: set<(Unit, Record)>, clock: int, now: int)
    requires Marked(served, counted, clock) && clock <= now
    ensures NewPairs(served, served.Keys) !! counted
    ensures Marked(KeptUnits(served, served.Keys, now), counted + NewPairs(served, served.Keys), now)
  {
    var served', counted' := KeptUnits(served, served.Keys, now), counted + NewPairs(served, served.Keys);
    forall u, r | u in served && r in served[u] ensures (u, r) in counted' {
      if !served[u][r] { assert r in Uncounted(served[u]) && (u, r) in NewPairs(served, served.Keys); }
    }
    forall u, r | u in served && r in served[u] && !Expired(r, now) ensures u in served' && r in served'[u] {
      assert r in Kept(served[u], now);
    }
  }

  lemma MoveElement<T>(rest: set<T>, done: set<T>, x: T)
    requires rest !! done && x in rest
    ensures (rest - {x}) !! (done + {x}) && (rest - {x}) + (done + {x}) == rest + done
  {}

  class ServiceCounter {
    var served: Served
    ghost var clock: int
    ghost var counted: set<(Unit, Record)>

    ghost predicate Valid()
      reads this
    {
      Marked(served, counted, clock)
    }

    constructor ()
      ensures Valid() && counted == {} && served == map[]
    {
      served, counted := map[], {};
    }

    // `ok` is false where the code throws: the time is off.
    method Serve(u: Unit, r: Record, now: int) returns (ok: bool)
      requires Valid() && now >= clock
      modifies this
      ensures Valid() && clock == now && counted == old(counted)
      ensures ok <==> r.time - NODES_TIME_SHIFT <= now < r.time + r.seconds + NODES_TIME_SHIFT
      ensures !ok ==> served == old(served)
      ensures ok ==>
        && u in served && r in served[u]
        && (served[u][r] <==> (u, r) in counted)
        && served == old(served)[u := served[u]] && served[u] == (if u in old(served) then old(served)[u] else map[])[r := served[u][r]]
    {
      clock := now;
      if r.time > now + NODES_TIME_SHIFT { return false; }
      if Expired(r, now) { return false; }
      if u !in served { served := served[u := map[]]; }
      if r !in served[u] { served := served[u := served[u][r := false]]; }
      return true;
    }

    // Where the loop over the units stands.
    ghost predicate Taken(was: Served, units: set<Unit>, items: seq<FileItem>, index: map<(Uri, Uri), nat>, now: int)
      reads this
    {
      && served == KeptUnits(was, units, now)
      && OkIndex(items, index) && Reports(items, NewCounts(was, units))
      && SumReport(items) == |NewPairs(was, units)|
    }

    method TakeUnit(u: Unit, now: int, items: seq<FileItem>, index: map<(Uri, Uri), nat>, ghost was: Served, ghost units: set<Unit>)
      returns (items': seq<FileItem>, index': map<(Uri, Uri), nat>)
      requires u in was && u !in units && Taken(was, units, items, index, now)
      modifies this`served
      ensures Taken(was, units + {u}, items', index', now)
    {
      UnitKept(was, units, u, now);
      CountsMore(was, units, u);
      PairsMore(was, units, u);
      items', index' := items, index;
      var records, count := CountRecords(served[u], now);
      if count > 0 { items', index' := AddCount(items, index, u, count, NewCounts(was, units)); }
      if records == map[] { served := served - {u}; } else { served := served[u := records]; }
    }

    lemma NothingTaken(index: map<(Uri, Uri), nat>, now: int)
      requires index == map[]
      ensures Taken(served, {}, [], index, now)
    {
      assert NewCounts(served, {}) == map[] && NewPairs(served, {}) == {} && KeptUnits(served, {}, now) == served;
    }

    method TakeAll(now: int) returns (items: seq<FileItem>, ghost index: map<(Uri, Uri), nat>)
      modifies this`served
      ensures Taken(old(served), old(served).Keys, items, index, now)
    {
      ghost var was, units := served, {};
      var at: map<(Uri, Uri), nat> := map[];
      items := [];
      var rest := served.Keys;
      NothingTaken(at, now);
      while rest != {}
        invariant rest !! units && rest + units == was.Keys && Taken(was, units, items, at, now)
        decreases rest
      {
        var u :| u in rest;
        assert u in was && u !in units;
        items, at := TakeUnit(u, now, items, at, was, units);
        MoveElement(rest, units, u);
        units, rest := units + {u}, rest - {u};
      }
      assert units == was.Keys;
      index := at;
    }

    // The report counts what was never counted before - every such record once - and lists
    // one item for each pair of uris.
    method TakeStatisticsInfo(now: int) returns (items: seq<FileItem>)
      requires Valid() && now >= clock
      modifies this
      ensures Valid() && clock == now && served == KeptUnits(old(served), old(served).Keys, now)
      ensures forall u, r :: u in served && r in served[u] <==>
                u in old(served) && r in old(served)[u] && now < r.time + r.seconds + NODES_TIME_SHIFT
      ensures var added := NewPairs(old(served), old(served).Keys);
              && added !! old(counted) && counted == old(counted) + added
              && SumReport(items) == |added|
      ensures Reports(items, NewCounts(old(served), old(served).Keys))
      ensures exists index :: OkIndex(items, index)
    {
      MarkedAfter(served, counted, clock, now);
      WhoIsKept(served, now);
      ghost var added := NewPairs(served, served.Keys);
      ghost var index;
      items, index := TakeAll(now);
      clock := now;
      counted := counted + added;
    }
  }
}
