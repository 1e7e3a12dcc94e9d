/**
 Downloading the headers of a peer's chain in chunks, from the promised header down, until a
 header that builds on an own block: the last common block of the two chains.
 */
module HeaderSync {
  import opened Basics
  import opened Chains
  import opened Consensus

  const HEADER_TR_LENGTH: nat := 49

  // ----- One header after another -----

  // The check of two neighbours, on unsigned words; the code's function returns the opposite.
  predicate Follows(next: HeaderEx, previous: HeaderEx) {
    var n, p := next.header, previous.header;
    && n.number == (p.number + 1) % WORD
    && n.cSum > p.cSum && n.cSum == (n.delta + p.cSum) % WORD
    && (n.constant == p.constant || n.constant == p.constant * 2 % WORD || n.constant == p.constant / 2)
    && n.prevHash == previous.hash
    && p.time <= n.time && n.time - p.time == BLOCK_MINE_DELAY
  }

  // Highest first, each following the next.
  ghost predicate Descends(s: seq<HeaderEx>) {
    forall i :: 0 < i < |s| ==> Follows(s[i - 1], s[i])
  }

  method CheckHeadersVector(s: seq<HeaderEx>) returns (bad: bool)
    requires s != []
    ensures bad <==> !Descends(s)
  {
    bad := false;
    var i := 1;
    while !bad && i < |s|
      invariant 1 <= i <= |s|
      invariant !bad ==> forall k :: 0 < k < i ==> Follows(s[k - 1], s[k])
      invariant bad ==> !Descends(s)
    {
      bad := !Follows(s[i - 1], s[i]);
      i := i + 1;
    }
  }

  ghost predicate Words(s: seq<HeaderEx>) {
    forall i :: 0 <= i < |s| ==> s[i].header.number < WORD
  }

  // Numbers fall by one from the front; the code only compares front and back.
  ghost predicate Counted(s: seq<HeaderEx>) {
    forall i :: 0 <= i < |s| ==> s[i].header.number + i == s[0].header.number
  }

  lemma {:induction false} NumbersCount(s: seq<HeaderEx>, n: nat)
    requires s != [] && Descends(s) && n < |s| && Words(s)
    requires s[0].header.number >= n
    ensures s[n].header.number + n == s[0].header.number
  {
    if n == 0 {
    } else {
      NumbersCount(s, n - 1);
      assert Follows(s[n - 1], s[n]);
    }
  }

  // Front and back fit together exactly when the whole run is there.
  lemma FrontAndBack(s: seq<HeaderEx>)
    requires s != [] && |s| <= WORD && Descends(s) && Words(s)
    ensures var front, back := s[0].header.number, s[|s| - 1].header.number;
            (front == (back + |s| - 1) % WORD && front >= back) <==> Counted(s)
  {
    var front, back := s[0].header.number, s[|s| - 1].header.number;
    if front == (back + |s| - 1) % WORD && front >= back {
      assert front == back + |s| - 1;
      forall i | 0 <= i < |s| ensures s[i].header.number + i == front { NumbersCount(s, i); }
    }
  }

  // ----- The session -----

  datatype State = Waiting | Completed | Errored

  function PointOf(h: Header): Point { Point(h.delta, h.constant) }

  function OwnPoints(blocks: seq<Stored>): seq<Point> {
    seq(|blocks|, i requires 0 <= i < |blocks| => PointOf(blocks[i].header))
  }

  function PointsUp(s: seq<HeaderEx>): seq<Point> {
    seq(|s|, i requires 0 <= i < |s| => PointOf(s[|s| - 1 - i].header))
  }

  // The hash of the own block before `number`; empty if there is none.
  function OwnPrevious(blocks: seq<Stored>, number: nat): Hash
    requires blocks != []
  {
    if number == |blocks| then blocks[|blocks| - 1].hash
    else if number < |blocks| then blocks[number].header.prevHash
    else ""
  }

  // The header builds on an own block.
  predicate Meets(blocks: seq<Stored>, h: HeaderEx)
    requires blocks != []
  {
    OwnPrevious(blocks, h.header.number) != "" && OwnPrevious(blocks, h.header.number) == h.header.prevHash
  }

  // A contiguous run from the promised header; only its last header may meet the own chain.
  ghost predicate RunFrom(blocks: seq<Stored>, promised: HeaderEx, s: seq<HeaderEx>)
    requires blocks != []
  {
    s != [] && s[0] == promised && Descends(s) && Counted(s) && forall i :: 0 <= i < |s| - 1 ==> !Meets(blocks, s[i])
  }

  ghost predicate FirstMeeting(blocks: seq<Stored>, s: seq<HeaderEx>, f: nat)
    requires blocks != []
  {
    f < |s| && Meets(blocks, s[f]) && forall i :: 0 <= i < f ==> !Meets(blocks, s[i])
  }

  // From `n` on the constants follow the rule.
  ghost predicate OkFrom(chain: seq<Point>, n: nat) {
    forall k :: Max(DELTA_STEP, n) <= k < |chain| ==> OkAt(chain, k)
  }

  // What is stored in the end.
  ghost predicate Found(blocks: seq<Stored>, promised: HeaderEx, s: seq<HeaderEx>)
    requires blocks != []
  {
    && RunFrom(blocks, promised, s) && Meets(blocks, s[|s| - 1])
    && 0 < s[|s| - 1].header.number <= |blocks|
    && var common := s[|s| - 1].header.number - 1;
       && Follows(s[|s| - 1], HeaderEx(blocks[common].header, blocks[common].hash))
       && OkFrom(OwnPoints(blocks[..common + 1]) + PointsUp(s), common + 1)
  }

  class HeaderSession {
    const own: Blockchain
    const promised: HeaderEx
    var from: nat
    var to: nat
    var syncHeaders: seq<HeaderEx>
    var state: State
    var stored: seq<HeaderEx>
    ghost var responses: nat

    constructor (own: Blockchain, promised: HeaderEx)
      requires own.Valid() && promised.header.number < WORD
      ensures Valid() && state == Waiting && this.own == own && this.promised == promised && responses == 0
      ensures from == promised.header.number && to == own.lastHeader.number
    {
      this.own, this.promised := own, promised;
      from, to := promised.header.number, own.lastHeader.number;
      syncHeaders, stored, state, responses := [], [], Waiting, 0;
    }

    // While waiting, the headers so far are a run that has not met the own chain, and every
    // response made it longer.
    ghost predicate Valid()
      reads this, own
    {
      && own.Valid() && promised.header.number < WORD
      && (state == Waiting ==>
            && responses <= |syncHeaders| && |syncHeaders| <= promised.header.number + 1
            && (syncHeaders != [] ==>
                  RunFrom(own.blocks, promised, syncHeaders) && !Meets(own.blocks, syncHeaders[|syncHeaders| - 1])))
      && (state == Completed ==> Found(own.blocks, promised, stored))
    }

    method SetErrored()
      modifies this`state
      ensures state == Errored
    {
      state := Errored;
    }

    // The first header, from the highest down, that builds on an own block.
    method FindLastCommon(s: seq<HeaderEx>) returns (found: Option<nat>)
      requires own.Valid()
      ensures found.None? ==> forall i :: 0 <= i < |s| ==> !Meets(own.blocks, s[i])
      ensures found.Some? ==> FirstMeeting(own.blocks, s, found.value)
    {
      var i := 0;
      while i < |s|
        invariant i <= |s| && forall k :: 0 <= k < i ==> !Meets(own.blocks, s[k])
      {
        var prevHash := "";
        var number := s[i].header.number;
        if number == |own.blocks| {
          prevHash := own.lastHash;
        } else if number < |own.blocks| {
          var header := own.HeaderAt(number);
          prevHash := header.value.prevHash;
        }
        if prevHash != "" && prevHash == s[i].header.prevHash { return Some(i); }
        i := i + 1;
      }
      return None;
    }

    // The deltas and constants from three headers below the last common block up.
    method DeltaVector(common: nat, s: seq<HeaderEx>) returns (v: seq<Point>)
      requires own.Valid() && common < |own.blocks|
      ensures v == (OwnPoints(own.blocks[..common + 1]) + PointsUp(s))[From(common)..]
    {
      ghost var chain := OwnPoints(own.blocks[..common + 1]) + PointsUp(s);
      v := [];
      var index := From(common);
      while index <= common
        invariant From(common) <= index <= common + 1 && v == chain[From(common)..index]
      {
        var header := own.HeaderAt(index);
        assert chain[index] == PointOf(own.blocks[index].header);
        assert chain[From(common)..index + 1] == chain[From(common)..index] + [chain[index]];
        v := v + [PointOf(header.value)];
        index := index + 1;
      }
      for i := 0 to |s|
        invariant v == chain[From(common)..common + 1 + i]
      {
        v := v + [PointOf(s[|s| - 1 - i].header)];
      }
    }

    // Whether the constants of the headers after the last common block follow the rule.
    method CheckConstants(common: nat, s: seq<HeaderEx>) returns (bad: bool)
      requires own.Valid() && common < |own.blocks|
      ensures bad <==> !OkFrom(OwnPoints(own.blocks[..common + 1]) + PointsUp(s), common + 1)
    {
      var v := DeltaVector(common, s);
      ValidatorWindow(OwnPoints(own.blocks[..common + 1]) + PointsUp(s), common);
      var outcome := CheckDeltaVector(v);
      return outcome.Some? && outcome.value.Wrong?;
    }

    // What the headers so far have to look like, the new ones included.
    ghost predicate Plausible(all: seq<HeaderEx>, now: int) {
      all != [] && all[0] == promised && Descends(all) && Counted(all) && promised.header.time <= now + NODES_TIME_SHIFT
    }

    method Validate(response: seq<HeaderEx>, now: int) returns (ok: bool)
      requires |syncHeaders| + |response| <= WORD
      requires Words(syncHeaders + response)
      modifies this`syncHeaders
      ensures ok <==> response != [] && Plausible(old(syncHeaders) + response, now)
      ensures ok ==> syncHeaders == old(syncHeaders) + response
    {
      if response == [] { return false; }
      syncHeaders := syncHeaders + response;
      var front, back := syncHeaders[0], syncHeaders[|syncHeaders| - 1];
      if front != promised { return false; }
      if Descends(syncHeaders) { FrontAndBack(syncHeaders); }
      if front.header.number != (back.header.number + |syncHeaders| - 1) % WORD || front.header.number < back.header.number {
        return false;
      }
      if front.header.time > now + NODES_TIME_SHIFT { return false; }
      var bad := CheckHeadersVector(syncHeaders);
      return !bad;
    }

    // What becomes of the session after a response that makes the headers `all`.
    ghost predicate Verdict(all: seq<HeaderEx>, now: int, answered: bool)
      reads this, own
      requires own.blocks != []
    {
      if !answered || !Plausible(all, now) then state == Errored
      else if forall i :: 0 <= i < |all| ==> !Meets(own.blocks, all[i]) then state == Waiting && syncHeaders == all
      else forall f: nat :: FirstMeeting(own.blocks, all, f) ==>
        if Found(own.blocks, promised, all[..f + 1]) then state == Completed && stored == all[..f + 1] else state == Errored
    }

    // The run down to the header that builds on the own chain is stored, if it fits there.
    method Finish(f: nat, now: int)
      requires own.Valid() && own.Linked() && FirstMeeting(own.blocks, syncHeaders, f) && Plausible(syncHeaders, now)
      modifies this`state, this`stored, this`syncHeaders
      ensures state == (if Found(own.blocks, promised, old(syncHeaders)[..f + 1]) then Completed else Errored)
      ensures state == Completed ==> stored == old(syncHeaders)[..f + 1]
    {
      var s := syncHeaders[..f + 1];
      RunOfPrefix(own.blocks, promised, syncHeaders, f);
      if s[f].header.number == 0 { SetErrored(); return; }
      var common := s[f].header.number - 1;
      var header := own.HeaderExAt(common);
      if !Follows(s[f], header.value) { SetErrored(); return; }
      var bad := CheckConstants(common, s);
      if bad { SetErrored(); return; }
      syncHeaders, stored, state := [], s, Completed;
    }

    method Conclude(f: nat, now: int)
      requires own.Valid() && own.Linked() && FirstMeeting(own.blocks, syncHeaders, f) && Plausible(syncHeaders, now)
      requires promised.header.number < WORD
      modifies this`state, this`stored, this`syncHeaders
      ensures state != Waiting && Valid() && Verdict(old(syncHeaders), now, true)
    {
      OneFirst(own.blocks, syncHeaders, f);
      Finish(f, now);
    }

    // The next request goes on below the last header.
    ghost predicate Asking()
      reads this
    {
      && syncHeaders != [] && from == (syncHeaders[|syncHeaders| - 1].header.number + WORD - 1) % WORD
      && to == if from > HEADER_TR_LENGTH then from - HEADER_TR_LENGTH else 0
    }

    // More headers have to be asked for.
    method AskForMore(now: int)
      requires own.Valid() && promised.header.number < WORD && Plausible(syncHeaders, now) && responses <= |syncHeaders|
      requires state == Waiting && forall i :: 0 <= i < |syncHeaders| ==> !Meets(own.blocks, syncHeaders[i])
      modifies this`from, this`to
      ensures Valid() && Verdict(syncHeaders, now, true)
      ensures Asking()
    {
      from := (syncHeaders[|syncHeaders| - 1].header.number + WORD - 1) % WORD;
      to := if from > HEADER_TR_LENGTH then from - HEADER_TR_LENGTH else 0;
      assert syncHeaders[|syncHeaders| - 1].header.number + |syncHeaders| - 1 == promised.header.number;
    }

    method Go(now: int)
      requires own.Valid() && own.Linked() && promised.header.number < WORD && Plausible(syncHeaders, now)
      requires state == Waiting && responses <= |syncHeaders|
      modifies this`state, this`stored, this`syncHeaders, this`from, this`to
      ensures Valid() && Verdict(old(syncHeaders), now, true)
      ensures state == Waiting ==> Asking()
    {
      var found := FindLastCommon(syncHeaders);
      if found.Some? {
        Conclude(found.value, now);
      } else {
        AskForMore(now);
      }
    }

    // One response of the peer.
    method ProcessResponse(response: seq<HeaderEx>, now: int)
      requires Valid() && state == Waiting && own.Linked() && |syncHeaders| + |response| <= WORD
      requires Words(syncHeaders + response)
      modifies this
      ensures Valid() && responses == old(responses) + 1
      ensures Verdict(old(syncHeaders) + response, now, response != [])
      ensures state == Waiting ==> Asking()
    {
      ghost var all := syncHeaders + response;
      responses := responses + 1;
      var ok := Validate(response, now);
      if !ok {
        SetErrored();
      } else {
        assert syncHeaders == all && responses <= |all|;
        Go(now);
      }
    }
  }

  lemma RunOfPrefix(blocks: seq<Stored>, promised: HeaderEx, s: seq<HeaderEx>, f: nat)
    requires blocks != [] && FirstMeeting(blocks, s, f) && s[0] == promised && Descends(s) && Counted(s)
    ensures RunFrom(blocks, promised, s[..f + 1])
    ensures s[f].header.number <= |blocks|
  {}

  lemma OneFirst(blocks: seq<Stored>, s: seq<HeaderEx>, f: nat)
    requires blocks != [] && FirstMeeting(blocks, s, f)
    ensures forall g: nat :: FirstMeeting(blocks, s, g) ==> g == f
  {}

  // ----- The last common block -----

  ghost predicate Chained(blocks: seq<Stored>) {
    && (forall i :: 0 <= i < |blocks| ==> blocks[i].header.number == i && blocks[i].hash != "")
    && forall i :: 0 < i < |blocks| ==> blocks[i].header.prevHash == blocks[i - 1].hash
  }

  // The stored headers go down to just above a block both chains have, and above it the two
  // chains have no block in common (below the promised one).
  lemma CommonIsHighest(blocks: seq<Stored>, promised: HeaderEx, s: seq<HeaderEx>)
    requires Chained(blocks) && blocks != [] && Found(blocks, promised, s)
    ensures var common := s[|s| - 1].header.number - 1;
            && common + |s| == promised.header.number
            && blocks[common].hash == s[|s| - 1].header.prevHash
            && forall j :: common < j < promised.header.number && j < |blocks| ==>
                 s[promised.header.number - j].header.number == j && blocks[j].hash != s[promised.header.number - j].hash
  {
    var n := promised.header.number;
    var common := s[|s| - 1].header.number - 1;
    assert s[|s| - 1].header.number + |s| - 1 == n;
    forall j | common < j < n && j < |blocks|
      ensures s[n - j].header.number == j && blocks[j].hash != s[n - j].hash
    {
      var i := n - j;
      assert s[i].header.number + i == n && s[i - 1].header.number + (i - 1) == n;
      assert Follows(s[i - 1], s[i]);
      assert !Meets(blocks, s[i - 1]);
    }
  }

  // A session is started for a header at least as high as the own head that is not the head
  // itself (src/libblockchain/node.cpp:1730-1737); then the chains differ up to the promised block.
  lemma NewsIsNotHeld(blocks: seq<Stored>, promised: HeaderEx, s: seq<HeaderEx>)
    requires Chained(blocks) && blocks != [] && Found(blocks, promised, s)
    requires promised.header.number >= |blocks| - 1 && promised.hash != blocks[|blocks| - 1].hash
    ensures var common := s[|s| - 1].header.number - 1;
            forall j :: common < j <= promised.header.number && j < |blocks| ==>
              blocks[j].hash != s[promised.header.number - j].hash
  {
    CommonIsHighest(blocks, promised, s);
    assert s[0] == promised;
  }

  // Without that, the own chain may hold the promised block only if the session ends at it:
  // the headers found are the promised one alone.
  lemma HeldPromiseEndsAtOnce(own: seq<Stored>, peer: seq<Stored>, n: nat, s: seq<HeaderEx>)
    requires Chained(own) && Chained(peer) && NoCollision(own, peer) && 0 < n < |peer| && n < |own|
    requires Found(own, Described(peer, n), s) && own[n].hash == peer[n].hash
    ensures s == [Described(peer, n)]
  {
    assert own[..n + 1] == peer[..n + 1];
    assert own[n] == own[..n + 1][n] == peer[n];
    assert s[0] == Described(peer, n) && own[n].header.prevHash == own[n - 1].hash != "";
    assert Meets(own, s[0]);
    assert s == [s[0]];
  }

  // ----- The other side -----

  function Described(blocks: seq<Stored>, i: nat): HeaderEx
    requires i < |blocks|
  {
    HeaderEx(blocks[i].header, blocks[i].hash)
  }

  // The headers from `high` down to `low`.
  function Downward(blocks: seq<Stored>, high: nat, low: nat): seq<HeaderEx>
    requires low <= high + 1 <= |blocks|
  {
    seq(high + 1 - low, i requires 0 <= i < high + 1 - low => Described(blocks, high - i))
  }

  function Highest(length: nat, from: nat): nat
    requires length > 0
  {
    if length - 1 < from then length - 1 else from
  }

  function Lowest(high: nat, to: nat): (low: nat)
    ensures low <= high <= low + HEADER_TR_LENGTH
  {
    var low := if to > high then high else to;
    if high > HEADER_TR_LENGTH && low < high - HEADER_TR_LENGTH then high - HEADER_TR_LENGTH else low
  }

  function Requested(blocks: seq<Stored>, from: nat, to: nat): seq<HeaderEx>
    requires blocks != []
  {
    var high := Highest(|blocks|, from);
    Downward(blocks, high, Lowest(high, to))
  }

  // From the highest header there is or was asked for, down to the lowest asked for, but no more
  // than fifty.
  lemma RequestedRange(blocks: seq<Stored>, from: nat, to: nat, high: nat)
    requires blocks != [] && high == Min(|blocks| - 1, from)
    ensures |Requested(blocks, from, to)| == high + 1 - Max(Min(to, high), high - 49)
    ensures forall i :: 0 <= i < |Requested(blocks, from, to)| ==>
              Requested(blocks, from, to)[i] == HeaderEx(blocks[high - i].header, blocks[high - i].hash)
  {
    assert Highest(|blocks|, from) == high;
    var r := Requested(blocks, from, to);
    forall i | 0 <= i < |r| ensures r[i] == HeaderEx(blocks[high - i].header, blocks[high - i].hash) {
      assert r[i] == Described(blocks, high - i);
    }
  }

  method ListHeaders(chain: Blockchain, from: nat, to: nat) returns (headers: seq<HeaderEx>)
    requires chain.Valid() && chain.Linked() && to <= from < |chain.blocks|
    ensures headers == Downward(chain.blocks, from, to)
  {
    headers := [];
    var index := from + 1;
    while index > to
      invariant to <= index <= from + 1 && headers == Downward(chain.blocks, from, index)
    {
      var header := chain.HeaderExAt(index - 1);
      assert header == Some(Described(chain.blocks, index - 1));
      headers := headers + [header.value];
      index := index - 1;
    }
  }

  // Answers a request for headers; at least one and at most fifty, always downward.
  method ProcessRequest(chain: Blockchain, blocksFrom: nat, blocksTo: nat) returns (response: seq<HeaderEx>)
    requires chain.Valid() && chain.Linked()
    ensures response == Requested(chain.blocks, blocksFrom, blocksTo)
    ensures 0 < |response| <= HEADER_TR_LENGTH + 1
  {
    var length := chain.Length();
    var from := Highest(length, blocksFrom);
    var to := Lowest(from, blocksTo);
    response := ListHeaders(chain, from, to);
  }

  // ----- Two honest sides -----

  // A chain all of whose blocks passed the checks.
  ghost predicate Proper(blocks: seq<Stored>) {
    && Chained(blocks) && 0 < |blocks| < WORD && Accepted(OwnPoints(blocks))
    && forall i :: 0 < i < |blocks| ==> Follows(Described(blocks, i), Described(blocks, i - 1))
  }

  // Equal hashes belong to equal blocks, on equal chains below.
  ghost predicate NoCollision(a: seq<Stored>, b: seq<Stored>) {
    forall i :: 0 <= i < |a| && i < |b| && a[i].hash == b[i].hash ==> a[..i + 1] == b[..i + 1]
  }

  lemma DownwardDescends(blocks: seq<Stored>, high: nat, low: nat)
    requires Proper(blocks) && low <= high < |blocks|
    ensures var s := Downward(blocks, high, low);
            Descends(s) && Counted(s) && Words(s) && s[0] == Described(blocks, high)
  {
    var s := Downward(blocks, high, low);
    forall i | 0 < i < |s| ensures Follows(s[i - 1], s[i]) {
      assert Follows(Described(blocks, high - i + 1), Described(blocks, high - i));
    }
    forall i | 0 <= i < |s| ensures s[i].header.number == high - i { assert s[i] == Described(blocks, high - i); }
  }

  lemma DownwardJoins(blocks: seq<Stored>, high: nat, middle: nat, low: nat)
    requires low <= middle + 1 <= high + 1 <= |blocks|
    ensures Downward(blocks, high, middle + 1) + Downward(blocks, middle, low) == Downward(blocks, high, low)
  {}

  // With the same genesis, the header of block one builds on an own block.
  lemma BlockOneMeets(own: seq<Stored>, peer: seq<Stored>)
    requires Chained(own) && Chained(peer) && own != [] && |peer| > 1 && own[0].hash == peer[0].hash
    ensures Meets(own, Described(peer, 1))
  {}

  lemma MeetingMeans(own: seq<Stored>, peer: seq<Stored>, i: nat)
    requires Chained(own) && Chained(peer) && own != [] && 0 < i < |peer| && Meets(own, Described(peer, i))
    ensures i <= |own| && own[i - 1].hash == peer[i - 1].hash
  {}

  // What the session finds where the two chains meet passes its checks.
  lemma HonestIsFound(own: seq<Stored>, peer: seq<Stored>, n: nat, i: nat)
    requires Chained(own) && own != [] && Proper(peer) && NoCollision(own, peer) && 0 < i <= n < |peer|
    requires Meets(own, Described(peer, i)) && forall k :: i < k <= n ==> !Meets(own, Described(peer, k))
    ensures Found(own, Described(peer, n), Downward(peer, n, i))
  {
    var s := Downward(peer, n, i);
    DownwardDescends(peer, n, i);
    MeetingMeans(own, peer, i);
    assert own[..i] == peer[..i] by { assert own[i - 1].hash == peer[i - 1].hash; }
    assert Follows(Described(peer, i), Described(peer, i - 1));
    assert own[i - 1] == own[..i][i - 1] == peer[..i][i - 1];
    HonestConstants(own, peer, n, i);
    assert Described(own, i - 1) == HeaderEx(own[i - 1].header, own[i - 1].hash);
  }

  lemma HonestConstants(own: seq<Stored>, peer: seq<Stored>, n: nat, i: nat)
    requires Accepted(OwnPoints(peer)) && 0 < i <= n < |peer| && i <= |own| && own[..i] == peer[..i]
    ensures OkFrom(OwnPoints(own[..i]) + PointsUp(Downward(peer, n, i)), i)
  {
    var all, chain := OwnPoints(peer), OwnPoints(own[..i]) + PointsUp(Downward(peer, n, i));
    var s := Downward(peer, n, i);
    forall k | 0 <= k < |chain| ensures chain[k] == all[k] {
      if k < i { assert own[..i][k] == peer[..i][k]; } else { assert s[n - k] == Described(peer, k); }
    }
    forall k | Max(DELTA_STEP, i) <= k < |chain| ensures OkAt(chain, k) {
      assert OkAt(all, k);
      assert chain[..k + 1] == all[..k + 1];
    }
  }

  lemma {:induction false} FirstExists(blocks: seq<Stored>, s: seq<HeaderEx>, n: nat) returns (f: nat)
    requires blocks != [] && n <= |s| && exists i :: 0 <= i < n && Meets(blocks, s[i])
    ensures f < n && FirstMeeting(blocks, s, f)
  {
    if exists i :: 0 <= i < n - 1 && Meets(blocks, s[i]) {
      f := FirstExists(blocks, s, n - 1);
    } else {
      f := n - 1;
    }
  }

  // What is known of two honest chains and the header promised by the peer.
  ghost predicate Honest(own: seq<Stored>, peer: seq<Stored>, promised: HeaderEx, now: int) {
    && Chained(own) && own != [] && Proper(peer) && NoCollision(own, peer) && own[0].hash == peer[0].hash
    && 0 < promised.header.number < |peer| && promised == Described(peer, promised.header.number)
    && promised.header.time <= now + NODES_TIME_SHIFT
  }

  lemma HonestVerdict(own: seq<Stored>, peer: seq<Stored>, promised: HeaderEx, now: int, low: nat)
    requires Honest(own, peer, promised, now) && low <= promised.header.number
    ensures var all := Downward(peer, promised.header.number, low);
            && (low <= 1 ==> exists i :: 0 <= i < |all| && Meets(own, all[i]))
            && forall f: nat :: FirstMeeting(own, all, f) ==> Found(own, promised, all[..f + 1])
  {
    var n := promised.header.number;
    var all := Downward(peer, n, low);
    BlockOneMeets(own, peer);
    assert low <= 1 ==> all[n - 1] == Described(peer, 1) && Meets(own, all[n - 1]);
    forall f: nat | FirstMeeting(own, all, f) ensures Found(own, promised, all[..f + 1]) {
      var i := n - f;
      assert all[f] == Described(peer, i);
      forall k | i < k <= n ensures !Meets(own, Described(peer, k)) { assert all[n - k] == Described(peer, k); }
      HonestIsFound(own, peer, n, i);
      assert all[..f + 1] == Downward(peer, n, i);
    }
  }

  lemma HonestHeaders(own: seq<Stored>, peer: seq<Stored>, promised: HeaderEx, now: int, from: nat, to: nat)
    requires Honest(own, peer, promised, now) && from <= promised.header.number
    ensures var n, low := promised.header.number, Lowest(from, to);
            var all := Downward(peer, n, low);
            && Downward(peer, n, from + 1) + Requested(peer, from, to) == all && Requested(peer, from, to) != []
            && |all| == n + 1 - low && Words(all) && Descends(all) && Counted(all) && all[0] == promised
  {
    DownwardJoins(peer, promised.header.number, from, Lowest(from, to));
    DownwardDescends(peer, promised.header.number, Lowest(from, to));
  }

  // A response after which the session can only wait or be done.
  method Receive(session: HeaderSession, response: seq<HeaderEx>, now: int, ghost all: seq<HeaderEx>)
    requires session.Valid() && session.state == Waiting && session.own.Linked() && response != []
    requires session.syncHeaders + response == all && Words(all) && |all| <= WORD && session.Plausible(all, now)
    requires forall f: nat :: FirstMeeting(session.own.blocks, all, f) ==> Found(session.own.blocks, session.promised, all[..f + 1])
    modifies session
    ensures session.Valid() && session.state != Errored && session.responses == old(session.responses) + 1
    ensures session.state == Waiting ==> session.syncHeaders == all && session.Asking()
    ensures session.state == Waiting ==> forall i :: 0 <= i < |all| ==> !Meets(session.own.blocks, all[i])
  {
    ghost var own := session.own.blocks;
    if exists i :: 0 <= i < |all| && Meets(own, all[i]) { ghost var f := FirstExists(own, all, |all|); }
    session.ProcessResponse(response, now);
  }

  lemma Below(peer: seq<Stored>, n: nat, low: nat)
    requires 0 < low <= n < |peer| < WORD && Chained(peer)
    ensures var all := Downward(peer, n, low);
            all != [] && (all[|all| - 1].header.number + WORD - 1) % WORD == low - 1
  {
    assert Downward(peer, n, low)[n - low] == Described(peer, low);
  }

  lemma GoesOn(own: seq<Stored>, peer: seq<Stored>, promised: HeaderEx, now: int, low: nat, all: seq<HeaderEx>)
    requires Honest(own, peer, promised, now) && low <= promised.header.number
    requires all == Downward(peer, promised.header.number, low) && forall i :: 0 <= i < |all| ==> !Meets(own, all[i])
    ensures low > 1 && all != [] && (all[|all| - 1].header.number + WORD - 1) % WORD == low - 1
  {
    HonestVerdict(own, peer, promised, now, low);
    Below(peer, promised.header.number, low);
  }

  // What an answer of the honest peer brings, given what the session has.
  ghost predicate Answered(own: seq<Stored>, peer: seq<Stored>, promised: HeaderEx, now: int, from: nat, to: nat)
    requires own != [] && from <= promised.header.number < |peer|
  {
    var n, low := promised.header.number, Lowest(from, to);
    var all := Downward(peer, n, low);
    && Downward(peer, n, from + 1) + Requested(peer, from, to) == all && Requested(peer, from, to) != []
    && |all| <= WORD && Words(all) && all != []
    && Descends(all) && Counted(all) && all[0] == promised && promised.header.time <= now + NODES_TIME_SHIFT
    && (forall f: nat :: FirstMeeting(own, all, f) ==> Found(own, promised, all[..f + 1]))
    && ((forall i :: 0 <= i < |all| ==> !Meets(own, all[i])) ==>
          low > 1 && (all[|all| - 1].header.number + WORD - 1) % WORD == low - 1)
  }

  lemma HonestAnswers(own: seq<Stored>, peer: seq<Stored>, promised: HeaderEx, now: int, from: nat, to: nat)
    requires Honest(own, peer, promised, now) && from <= promised.header.number
    ensures Answered(own, peer, promised, now, from, to)
  {
    var low := Lowest(from, to);
    var all := Downward(peer, promised.header.number, low);
    HonestHeaders(own, peer, promised, now, from, to);
    HonestVerdict(own, peer, promised, now, low);
    if forall i :: 0 <= i < |all| ==> !Meets(own, all[i]) { GoesOn(own, peer, promised, now, low, all); }
  }

  // An answer of the peer: the session goes on below, or is done.
  method Exchange(session: HeaderSession, response: seq<HeaderEx>, ghost peer: seq<Stored>, now: int)
    requires session.Valid() && session.state == Waiting && session.own.Linked()
    requires 0 < session.from <= session.promised.header.number < |peer|
    requires Answered(session.own.blocks, peer, session.promised, now, session.from, session.to)
    requires response == Requested(peer, session.from, session.to)
    requires session.syncHeaders == Downward(peer, session.promised.header.number, session.from + 1)
    modifies session
    ensures session.Valid() && session.state != Errored && session.responses == old(session.responses) + 1
    ensures session.state == Waiting ==> 0 < session.from < old(session.from)
    ensures session.state == Waiting ==> session.syncHeaders == Downward(peer, session.promised.header.number, session.from + 1)
  {
    ghost var low := Lowest(session.from, session.to);
    Receive(session, response, now, Downward(peer, session.promised.header.number, low));
    if session.state == Waiting { assert session.from + 1 == low; }
  }

  ghost predicate AlwaysAnswered(own: seq<Stored>, peer: seq<Stored>, promised: HeaderEx, now: int)
    requires own != [] && promised.header.number < |peer|
  {
    forall from, to :: 0 <= from <= promised.header.number && to >= 0 ==> Answered(own, peer, promised, now, from, to)
  }

  // One request and its answer.
  method Ask(session: HeaderSession, peer: Blockchain, now: int)
    requires session.Valid() && session.state == Waiting && session.own.Linked() && peer.Valid() && peer.Linked()
    requires 0 < session.from <= session.promised.header.number < |peer.blocks|
    requires AlwaysAnswered(session.own.blocks, peer.blocks, session.promised, now)
    requires session.syncHeaders == Downward(peer.blocks, session.promised.header.number, session.from + 1)
    modifies session
    ensures session.Valid() && session.state != Errored && session.responses == old(session.responses) + 1
    ensures session.state == Waiting ==> 0 < session.from < old(session.from)
    ensures session.state == Waiting ==> session.syncHeaders == Downward(peer.blocks, session.promised.header.number, session.from + 1)
  {
    var response := ProcessRequest(peer, session.from, session.to);
    assert Answered(session.own.blocks, peer.blocks, session.promised, now, session.from, session.to);
    Exchange(session, response, peer.blocks, now);
  }

  // The loop of requests and answers, given what the answers bring.
  method Download(session: HeaderSession, peer: Blockchain, now: int)
    requires session.Valid() && session.state == Waiting && session.own.Linked() && peer.Valid() && peer.Linked()
    requires 0 < session.promised.header.number < |peer.blocks|
    requires AlwaysAnswered(session.own.blocks, peer.blocks, session.promised, now)
    requires session.syncHeaders == [] && session.from == session.promised.header.number && session.responses == 0
    modifies session
    ensures session.Valid() && session.state == Completed
    ensures session.responses <= session.promised.header.number
  {
    while session.state == Waiting
      invariant session.Valid() && session.state != Errored
      invariant session.responses <= session.promised.header.number - if session.state == Waiting then session.from else 0
      invariant session.state == Waiting ==>
        && 0 < session.from <= session.promised.header.number
        && session.syncHeaders == Downward(peer.blocks, session.promised.header.number, session.from + 1)
      decreases if session.state == Waiting then session.from else 0
    {
      Ask(session, peer, now);
    }
  }

  // With the same genesis, an honest peer and no collision of hashes, the download ends with
  // the headers above the last common block (see CommonIsHighest), after few enough responses.
  method Synchronise(session: HeaderSession, peer: Blockchain, now: int)
    requires session.Valid() && session.state == Waiting && session.own.Linked() && peer.Valid() && peer.Linked()
    requires Honest(session.own.blocks, peer.blocks, session.promised, now)
    requires session.syncHeaders == [] && session.from == session.promised.header.number && session.responses == 0
    modifies session
    ensures session.Valid() && session.state == Completed
    ensures session.responses <= session.promised.header.number
  {
    forall from, to | 0 <= from <= session.promised.header.number && to >= 0
      ensures Answered(session.own.blocks, peer.blocks, session.promised, now, from, to)
    {
      HonestAnswers(session.own.blocks, peer.blocks, session.promised, now, from, to);
    }
    Download(session, peer, now);
  }
}
