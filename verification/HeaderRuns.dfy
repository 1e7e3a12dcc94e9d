/** What a run of headers that passed the checks says of the work and the time it stands for. */
module HeaderRuns {
  import opened Basics
  import opened Chains
  import opened Consensus
  import opened HeaderSync

  predicate IsWord(h: Header) {
    h.number < WORD && h.delta < WORD && h.constant < WORD && h.cSum < WORD
  }

  // One header on another, without wrap-around: the sum must grow, so adding the delta to it
  // cannot have wrapped, and the delta is not zero.
  predicate BuildsOn(next: HeaderEx, previous: HeaderEx) {
    var n, p := next.header, previous.header;
    && n.prevHash == previous.hash && n.number == p.number + 1 && n.time == p.time + 600
    && n.delta > 0 && n.cSum == p.cSum + n.delta
    && (n.constant == p.constant || n.constant == 2 * p.constant || n.constant == p.constant / 2)
  }

  lemma FollowsInNumbers(next: HeaderEx, previous: HeaderEx)
    requires IsWord(next.header) && IsWord(previous.header)
    requires previous.header.number + 1 < WORD && 2 * previous.header.constant < WORD
    ensures Follows(next, previous) <==> BuildsOn(next, previous)
  {}

  lemma StepAddsUp(next: HeaderEx, previous: HeaderEx)
    requires IsWord(next.header) && IsWord(previous.header) && Follows(next, previous)
    ensures next.header.delta > 0 && next.header.cSum == previous.header.cSum + next.header.delta
    ensures next.header.time == previous.header.time + 600
  {}

  function Deltas(s: seq<HeaderEx>): nat {
    if s == [] then 0 else Deltas(s[..|s| - 1]) + s[|s| - 1].header.delta
  }

  // The sums of a run that passed the checks differ by exactly the deltas in between, of which
  // none is zero, and it took ten minutes for each header.
  lemma {:induction false} RunAddsUp(s: seq<HeaderEx>, n: nat)
    requires n < |s| && Descends(s) && forall i :: 0 <= i < |s| ==> IsWord(s[i].header)
    ensures s[0].header.cSum == s[n].header.cSum + Deltas(s[..n]) && Deltas(s[..n]) >= n
    ensures s[0].header.time == s[n].header.time + 600 * n
  {
    if n == 0 {
    } else {
      RunAddsUp(s, n - 1);
      assert Follows(s[n - 1], s[n]);
      StepAddsUp(s[n - 1], s[n]);
      assert s[..n][..n - 1] == s[..n - 1];
    }
  }

  // A run that was stored stands for more work than the own chain up to the common block, by
  // exactly its deltas.
  lemma StoredAddsUp(blocks: seq<Stored>, promised: HeaderEx, s: seq<HeaderEx>)
    requires blocks != [] && Found(blocks, promised, s)
    requires (forall i :: 0 <= i < |s| ==> IsWord(s[i].header)) && forall i :: 0 <= i < |blocks| ==> IsWord(blocks[i].header)
    ensures var common := blocks[s[|s| - 1].header.number - 1].header;
            && promised.header.cSum == common.cSum + Deltas(s) && promised.header.time == common.time + 600 * |s|
            && Deltas(s) >= |s|
  {
    var last := |s| - 1;
    var own := blocks[s[last].header.number - 1];
    RunAddsUp(s, last);
    StepAddsUp(s[last], HeaderEx(own.header, own.hash));
  }

  // Constants that follow the rule never fail the test of two neighbours.
  lemma RuleIsAStep(constant: nat, sum: nat)
    ensures var next := Rule(constant, sum); next == constant || next == constant * 2 % WORD || next == constant / 2
  {}

  // The header with a number, on the own chain up to the common block or in the run above it.
  function HeaderAt(blocks: seq<Stored>, common: nat, s: seq<HeaderEx>, k: nat): Header
    requires common < |blocks| && k <= common + |s|
  {
    if k <= common then blocks[k].header else s[common + |s| - k].header
  }

  lemma JoinedAt(blocks: seq<Stored>, common: nat, s: seq<HeaderEx>, k: nat)
    requires common < |blocks| && k <= common + |s|
    ensures var h := HeaderAt(blocks, common, s, k);
            (OwnPoints(blocks[..common + 1]) + PointsUp(s))[k] == Point(h.delta, h.constant)
  {
    if k <= common {
      assert blocks[..common + 1][k] == blocks[k];
    } else {
      assert PointsUp(s)[k - (common + 1)] == PointOf(s[common + |s| - k].header);
    }
  }

  // Every constant of a stored run is the one the three headers before it ask for.
  lemma StoredFollowsRule(blocks: seq<Stored>, promised: HeaderEx, s: seq<HeaderEx>, k: nat)
    requires blocks != [] && Found(blocks, promised, s)
    requires var common := s[|s| - 1].header.number - 1; common < k <= common + |s| && k >= 3
    ensures var common := s[|s| - 1].header.number - 1;
            var a, b, c := HeaderAt(blocks, common, s, k - 3), HeaderAt(blocks, common, s, k - 2), HeaderAt(blocks, common, s, k - 1);
            HeaderAt(blocks, common, s, k).constant == Rule(c.constant, a.delta + b.delta + c.delta)
  {
    var common := s[|s| - 1].header.number - 1;
    var chain := OwnPoints(blocks[..common + 1]) + PointsUp(s);
    assert OkAt(chain, k);
    JoinedAt(blocks, common, s, k);
    JoinedAt(blocks, common, s, k - 1);
    JoinedAt(blocks, common, s, k - 2);
    JoinedAt(blocks, common, s, k - 3);
  }
}
