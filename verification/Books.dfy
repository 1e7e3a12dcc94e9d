/**
 Steps of the book of one sponsored unit - sponsor, use, cancel and their undoing - and
 what a whole run of them pays to and returns for every sponsorship.
 */
module Books {
  import opened Basics
  import opened Collecting
  import opened Sponsorship

  // ----- Steps -----

  function Opened(it: Item): Book {
    Book([it.(pointsBefore := 1, cancelled := false)], [it.start])
  }

  function Sponsored(b: Book, it: Item): Book {
    b.(items := b.items + [it.(pointsBefore := |b.points|, cancelled := false)])
  }

  function Used(b: Book, t: int): Book {
    b.(points := b.points + [t])
  }

  // Payments happen only when time moved past the last recorded point.
  function UsePays(b: Book, t: int): map<Hash, Payment>
    requires Ok(b)
  {
    if t > b.Last() then Scan(b, t, "") else map[]
  }

  function Unused(b: Book): Book
    requires |b.points| > 0
  {
    b.(points := b.points[..|b.points| - 1])
  }

  function Mark(it: Item, line: Option<Payment>, value: bool): Item {
    if line.Some? then it.(cancelled := value) else it
  }

  // Sets the cancelled flag of every item the scan for `h` writes down.
  function Marked(b: Book, t: int, h: Hash, value: bool): Book
    requires Ok(b) && ScanTime(b, t)
  {
    b.(items := seq(|b.items|, i requires 0 <= i < |b.items| => Mark(b.items[i], Line(b, i, t, h), value)))
  }

  function CancelPays(b: Book, t: int, h: Hash): map<Hash, Payment>
    requires Ok(b)
  {
    if t > b.Last() then Scan(b, t, h) else map[]
  }

  function Cancelled(b: Book, t: int, h: Hash, value: bool): Book
    requires Ok(b)
  {
    if t > b.Last() then Marked(b, t, h, value) else b
  }

  function Paid(m: map<Hash, Payment>, h: Hash): nat {
    if h in m then m[h].amount else 0
  }

  // ----- One step at a time -----

  lemma ScanPaid(b: Book, t: int, cancel: Hash, i: nat)
    requires Ok(b) && ScanTime(b, t) && i < |b.items|
    ensures Paid(Scan(b, t, cancel), b.items[i].hash) ==
            if Visited(b, i, t, cancel) then Slice(b, i, t, cancel) else 0
  {
    CollectHas(Hashes(b), Lines(b, t, cancel), Identity(|b.items|));
    var h := b.items[i].hash;
    assert Hashes(b)[i] == h && Lines(b, t, cancel)[i] == Line(b, i, t, cancel);
    assert Identity(|b.items|)[i] == i;
    if h in Scan(b, t, cancel) {
      var j :| j in Identity(|b.items|) && Lines(b, t, cancel)[j].Some? && Hashes(b)[j] == h;
      assert j == i;
    }
  }

  lemma UsedIsOk(b: Book, t: int)
    requires Ok(b) && Fresh(b, t)
    ensures Ok(Used(b, t))
  {
    assert OpensWith(b, 0);
  }

  // A use in order pays each live item exactly what its remainder shrinks by.
  lemma UseSettles(b: Book, t: int, i: nat)
    requires Ok(b) && Fresh(b, t) && t > b.Last() && i < |b.items|
    ensures Ok(Used(b, t))
    ensures Remaining(b, i) == Paid(UsePays(b, t), b.items[i].hash) + Remaining(Used(b, t), i)
  {
    UsedIsOk(b, t);
    ScanPaid(b, t, "", i);
    var it := b.items[i];
    assert OkItem(it, |b.points|);
    if Visited(b, i, t, "") {
      SliceIsForward(b, i, t, "");
      PartIsEarnedDifference(it, Covered(b, i), Min(t, it.end));
      assert Covered(Used(b, t), i) == Min(t, it.end);
      EarnedMonotone(it, Covered(b, i), Min(t, it.end));
    } else if !it.cancelled {
      assert t <= it.start || !Active(b, i);
    }
  }

  // What item `i` loses by a use that is not later than the last point.
  function Lost(b: Book, t: int, i: nat): nat
    requires Ok(b) && i < |b.items|
  {
    if t > b.Last() || b.items[i].cancelled then 0 else Earned(b.items[i], Clamp(b.items[i], t))
  }

  // Such a use can only come while the first sponsor's start is the only point.
  lemma EarlyUseLoses(b: Book, t: int, i: nat)
    requires Ok(b) && Fresh(b, t) && t <= b.Last() && i < |b.items|
    ensures |b.points| == 1
    ensures Ok(Used(b, t)) && UsePays(b, t) == map[]
    ensures Remaining(b, i) == Lost(b, t, i) + Remaining(Used(b, t), i)
  {
    UsedIsOk(b, t);
    var it := b.items[i];
    assert OkItem(it, |b.points|);
    EarnedEnds(it);
    EarnedMonotone(it, Clamp(it, t), it.end);
  }

  // The whole amount is 3600 000 over one hour; two sponsors, the first starts later.
  lemma EarlyUseLosesExample()
    ensures
      var first := Item(3600000, 10000, 13600, "a", "h1", 0, false);
      var second := Item(3600000, 0, 3600, "b", "h2", 0, false);
      var b := Sponsored(Opened(first), second);
      Ok(b) && Fresh(b, 600) && UsePays(b, 600) == map[] && Ok(Used(b, 600)) &&
      Remaining(b, 1) == 3600000 && Remaining(Used(b, 600), 1) == 3000000
  {
    var first := Item(3600000, 10000, 13600, "a", "h1", 0, false);
    var second := Item(3600000, 0, 3600, "b", "h2", 0, false);
    var b := Sponsored(Opened(first), second);
    assert OkItem(b.items[0], 1) && OkItem(b.items[1], 1);
    assert Ok(b);
    assert Covered(b, 1) == 0 && Covered(Used(b, 600), 1) == 600;
    assert Earned(b.items[1], 0) == 0 && Earned(b.items[1], 600) == 600000;
  }

  lemma MarkedIsOk(b: Book, t: int, h: Hash, value: bool)
    requires Ok(b) && ScanTime(b, t)
    ensures Ok(Marked(b, t, h, value))
  {
    var b' := Marked(b, t, h, value);
    assert OpensWith(b, 0);
    forall i | 0 <= i < |b.items|
      ensures b'.items[i].(cancelled := false) == b.items[i].(cancelled := false)
    {}
    forall i | 0 <= i < |b'.items| ensures OkItem(b'.items[i], |b'.points|) {
      assert OkItem(b.items[i], |b.points|);
    }
  }

  // A cancellation returns all that is left of its item and touches no other item.
  lemma CancelSettles(b: Book, t: int, h: Hash, i: nat)
    requires Ok(b) && h != "" && i < |b.items|
    requires b.items[i].hash == h ==> !b.items[i].cancelled
    ensures Ok(Cancelled(b, t, h, true))
    ensures Remaining(b, i) == Paid(CancelPays(b, t, h), b.items[i].hash) + Remaining(Cancelled(b, t, h, true), i)
    ensures b.items[i].hash == h && t > b.Last() && b.items[i].start < t ==> Remaining(Cancelled(b, t, h, true), i) == 0
    ensures b.items[i].hash != h ==> Cancelled(b, t, h, true).items[i] == b.items[i]
  {
    if t > b.Last() {
      MarkedIsOk(b, t, h, true);
      ScanPaid(b, t, h, i);
      var it := b.items[i];
      assert OkItem(it, |b.points|);
      if Visited(b, i, t, h) {
        SliceIsForward(b, i, t, h);
        PartIsEarnedDifference(it, Covered(b, i), it.end);
      }
      EarnedEnds(it);
    }
  }

  // ----- Undoing -----

  lemma UnuseRestores(b: Book, t: int)
    requires Ok(b) && Fresh(b, t)
    ensures Used(b, t).Last() == t && Unused(Used(b, t)) == b
  {
    assert Unused(Used(b, t)).points == b.points;
  }

  // The undoing scan of a cancellation finds the same payment and clears the same flags.
  lemma UncancelRestores(b: Book, t: int, h: Hash)
    requires Ok(b) && h != ""
    requires forall i :: 0 <= i < |b.items| && b.items[i].hash == h ==> !b.items[i].cancelled
    ensures Ok(Cancelled(b, t, h, true))
    ensures CancelPays(Cancelled(b, t, h, true), t, h) == CancelPays(b, t, h)
    ensures Cancelled(Cancelled(b, t, h, true), t, h, false) == b
  {
    if t > b.Last() {
      MarkedIsOk(b, t, h, true);
      var b' := Marked(b, t, h, true);
      forall i | 0 <= i < |b.items|
        ensures Line(b', i, t, h) == Line(b, i, t, h)
        ensures Mark(b'.items[i], Line(b', i, t, h), false) == b.items[i]
      {
        LineIgnoresFlags(b, b', t, h, i);
      }
      assert Hashes(b') == Hashes(b);
      assert Lines(b', t, h) == Lines(b, t, h);
      assert Marked(b', t, h, false).items == b.items;
    }
  }

  lemma LineIgnoresFlags(b: Book, b': Book, t: int, h: Hash, i: nat)
    requires Ok(b) && Ok(b') && ScanTime(b, t) && h != "" && i < |b.items| == |b'.items|
    requires b'.points == b.points
    requires b'.items[i].(cancelled := false) == b.items[i].(cancelled := false)
    ensures Line(b', i, t, h) == Line(b, i, t, h)
  {
    assert Visited(b', i, t, h) == Visited(b, i, t, h);
    if Visited(b, i, t, h) { assert Slice(b', i, t, h) == Slice(b, i, t, h); }
  }

  // ----- Whole runs -----

  datatype Step = Sponsor(item: Item) | Use(time: int) | Cancel(cancelTime: int, hash: Hash)

  ghost predicate Allowed(b: Book, s: Step)
    requires Ok(b)
  {
    match s
    case Sponsor(it) => it.start < it.end && it.hash != "" && forall i :: 0 <= i < |b.items| ==> b.items[i].hash != it.hash
    case Use(t) => Fresh(b, t)
    case Cancel(t, h) => h != "" && forall i :: 0 <= i < |b.items| && b.items[i].hash == h ==> !b.items[i].cancelled
  }

  function After(b: Book, s: Step): Book
    requires Ok(b) && Allowed(b, s)
  {
    match s
    case Sponsor(it) => Sponsored(b, it)
    case Use(t) => Used(b, t)
    case Cancel(t, h) => Cancelled(b, t, h, true)
  }

  function StepPays(b: Book, s: Step): map<Hash, Payment>
    requires Ok(b) && Allowed(b, s)
  {
    match s
    case Sponsor(_) => map[]
    case Use(t) => UsePays(b, t)
    case Cancel(t, h) => CancelPays(b, t, h)
  }

  function StepLost(b: Book, s: Step, i: nat): nat
    requires Ok(b) && i < |b.items|
  {
    if s.Use? then Lost(b, s.time, i) else 0
  }

  lemma {:induction false} AfterIsOk(b: Book, s: Step)
    requires Ok(b) && Allowed(b, s)
    ensures Ok(After(b, s)) && |b.items| <= |After(b, s).items|
    ensures forall i :: 0 <= i < |b.items| ==>
              After(b, s).items[i].(cancelled := false) == b.items[i].(cancelled := false)
  {
    match s
    case Sponsor(it) => assert OpensWith(b, 0);
    case Use(t) => UsedIsOk(b, t);
    case Cancel(t, h) => if t > b.Last() { MarkedIsOk(b, t, h, true); }
  }

  lemma StepSettles(b: Book, s: Step, i: nat)
    requires Ok(b) && Allowed(b, s) && i < |b.items|
    ensures Ok(After(b, s)) && i < |After(b, s).items|
    ensures Remaining(b, i) == Paid(StepPays(b, s), b.items[i].hash) + StepLost(b, s, i) + Remaining(After(b, s), i)
  {
    AfterIsOk(b, s);
    match s
    case Sponsor(it) => assert After(b, s).items[i] == b.items[i];
    case Use(t) => if t > b.Last() { UseSettles(b, t, i); } else { EarlyUseLoses(b, t, i); }
    case Cancel(t, h) => CancelSettles(b, t, h, i);
  }

  ghost predicate AllowedRun(b: Book, run: seq<Step>)
    decreases |run|
  {
    Ok(b) && (run != [] ==> Allowed(b, run[0]) && AllowedRun(After(b, run[0]), run[1..]))
  }

  function Final(b: Book, run: seq<Step>): Book
    requires AllowedRun(b, run)
    decreases |run|
  {
    if run == [] then b else Final(After(b, run[0]), run[1..])
  }

  function TotalPaid(b: Book, run: seq<Step>, h: Hash): nat
    requires AllowedRun(b, run)
    decreases |run|
  {
    if run == [] then 0 else Paid(StepPays(b, run[0]), h) + TotalPaid(After(b, run[0]), run[1..], h)
  }

  function TotalLost(b: Book, run: seq<Step>, i: nat): nat
    requires AllowedRun(b, run) && i < |b.items|
    decreases |run|
  {
    if run == [] then 0
    else
      AfterIsOk(b, run[0]);
      StepLost(b, run[0], i) + TotalLost(After(b, run[0]), run[1..], i)
  }

  // Over every run, what was left of an item is paid out, still left, or lost by early uses.
  lemma {:induction false} RunSettles(b: Book, run: seq<Step>, i: nat)
    requires AllowedRun(b, run) && i < |b.items|
    ensures Ok(Final(b, run)) && i < |Final(b, run).items|
    ensures Final(b, run).items[i].(cancelled := false) == b.items[i].(cancelled := false)
    ensures Remaining(b, i) ==
            TotalPaid(b, run, b.items[i].hash) + TotalLost(b, run, i) + Remaining(Final(b, run), i)
    decreases |run|
  {
    if run == [] {
    } else {
      AfterIsOk(b, run[0]);
      StepSettles(b, run[0], i);
      RunSettles(After(b, run[0]), run[1..], i);
    }
  }

  // From the moment it is sponsored, an item never pays more than its amount; it pays the
  // amount exactly when nothing is left and no early use lost a part of it.
  lemma SponsorshipNeverOverpays(b: Book, run: seq<Step>, i: nat)
    requires AllowedRun(b, run) && i < |b.items|
    requires b.items[i].pointsBefore == |b.points| && !b.items[i].cancelled
    ensures var paid := TotalPaid(b, run, b.items[i].hash);
            && Ok(Final(b, run)) && i < |Final(b, run).items|
            && paid <= b.items[i].amount
            && (paid == b.items[i].amount <==> Remaining(Final(b, run), i) == 0 && TotalLost(b, run, i) == 0)
  {
    EarnedEnds(b.items[i]);
    assert Remaining(b, i) == b.items[i].amount;
    RunSettles(b, run, i);
  }

  // Nothing is left of a cancelled item, nor of one that was used at or after its end.
  lemma SettledWhenExhausted(b: Book, i: nat)
    requires Ok(b) && i < |b.items|
    requires b.items[i].cancelled || !Active(b, i)
    ensures Remaining(b, i) == 0
  {
    EarnedEnds(b.items[i]);
  }
}
