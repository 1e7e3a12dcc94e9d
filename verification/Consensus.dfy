/**
 The difficulty constant: every block from the fourth on doubles, halves or keeps the
 constant of the block before, by the sum of the three deltas before it.  The miner looks at
 the last three headers only, a validator at whatever follows the last common block.
 */
module Consensus {
  import opened Basics

  const DELTA_STEP: nat := 3
  const DELTA_UP: nat := 4000000000
  const DELTA_DOWN: nat := 1000000000

  // A header's delta and constant.
  datatype Point = Point(delta: nat, constant: nat)

  // The rule, on unsigned words.
  function Rule(constant: nat, sum: nat): nat {
    if sum % WORD > DELTA_STEP * DELTA_UP then constant * 2 % WORD
    else if sum % WORD < DELTA_STEP * DELTA_DOWN && constant > 1 then constant / 2
    else constant
  }

  function Sum(v: seq<Point>): nat {
    if v == [] then 0 else Sum(v[..|v| - 1]) + v[|v| - 1].delta
  }

  // The constant the header at `k` should have, from those before it.
  function Expected(v: seq<Point>, k: nat): nat
    requires 0 < k <= |v|
  {
    if k < DELTA_STEP then v[k - 1].constant
    else Rule(v[k - 1].constant, v[k - 3].delta + v[k - 2].delta + v[k - 1].delta)
  }

  predicate OkAt(v: seq<Point>, k: nat)
    requires DELTA_STEP <= k < |v|
  {
    v[k].constant == Expected(v, k)
  }

  ghost predicate Accepted(v: seq<Point>) {
    forall k :: DELTA_STEP <= k < |v| ==> OkAt(v, k)
  }

  datatype Outcome = Value(value: nat) | Wrong(index: nat, expected: nat)

  // The sum of the deltas of one step, comparing a constant on the way.
  method OneStep(v: seq<Point>, index: nat, end: nat, expected: nat, checkAt: nat)
    returns (outcome: Outcome, sum: nat, checkAt': nat)
    requires index < end <= |v| && end <= checkAt + 1
    ensures outcome == if index <= checkAt < end && v[checkAt].constant != expected then Wrong(checkAt, expected) else Value(expected)
    ensures outcome.Value? ==> sum == Sum(v[index..end]) % WORD
    ensures checkAt' == if index <= checkAt < end then checkAt + 1 else checkAt
  {
    sum, checkAt' := 0, checkAt;
    var index2 := index;
    while index2 != end
      invariant index <= index2 <= end && sum == Sum(v[index..index2]) % WORD
      invariant checkAt' == if index <= checkAt < index2 then checkAt + 1 else checkAt
      invariant index <= checkAt < index2 ==> v[checkAt].constant == expected
    {
      if checkAt' == index2 {
        checkAt' := checkAt' + 1;
        if v[index2].constant != expected { return Wrong(index2, expected), sum, checkAt'; }
      }
      assert v[index..index2 + 1][..index2 - index] == v[index..index2];
      sum := (sum + v[index2].delta) % WORD;
      index2 := index2 + 1;
    }
    outcome := Value(expected);
  }

  lemma SumOfThree(v: seq<Point>, k: nat)
    requires DELTA_STEP <= k <= |v|
    ensures Sum(v[k - 3..k]) == v[k - 3].delta + v[k - 2].delta + v[k - 1].delta
  {
    var w := v[k - 3..k];
    assert w[..2][..1] == w[..1] && w[..1][..0] == [];
    assert Sum(w) == Sum(w[..2]) + w[2].delta;
    assert Sum(w[..2]) == Sum(w[..1]) + w[1].delta;
    assert Sum(w[..1]) == Sum([]) + w[0].delta;
  }

  // None where the code refuses an empty vector.
  method CheckDeltaVector(v: seq<Point>) returns (outcome: Option<Outcome>)
    ensures outcome == None <==> v == []
    ensures v != [] ==> (outcome.value.Value? <==> Accepted(v))
    ensures v != [] && Accepted(v) ==> outcome == Some(Value(Expected(v, |v|)))
    ensures v != [] && !Accepted(v) ==>
              var w := outcome.value;
              && DELTA_STEP <= w.index < |v| && !OkAt(v, w.index) && w.expected == Expected(v, w.index)
              && forall k :: DELTA_STEP <= k < w.index ==> OkAt(v, k)
  {
    if v == [] { return None; }
    var expected := if |v| >= DELTA_STEP then v[DELTA_STEP - 1].constant else v[|v| - 1].constant;
    var checkAt := DELTA_STEP;
    var indexEnd := if |v| >= DELTA_STEP then |v| - DELTA_STEP + 1 else 1;
    var index := 0;
    while index != indexEnd
      invariant index <= indexEnd
      invariant checkAt == Max(DELTA_STEP, index + 2)
      invariant index > 0 ==> expected == Expected(v, Min(index + 2, |v|))
      invariant index == 0 ==> expected == v[Min(2, |v| - 1)].constant
      invariant forall k :: DELTA_STEP <= k < Min(index + 2, |v|) ==> OkAt(v, k)
    {
      var enough := index + DELTA_STEP <= |v|;
      var end := if enough then index + DELTA_STEP else |v|;
      var step, sum, next := OneStep(v, index, end, expected, checkAt);
      if step.Wrong? {
        assert !OkAt(v, step.index);
        return Some(step);
      }
      checkAt := next;
      if enough {
        SumOfThree(v, index + DELTA_STEP);
        if index > 0 { assert OkAt(v, index + 2); }
      }
      if enough && sum > DELTA_STEP * DELTA_UP {
        expected := expected * 2 % WORD;
      } else if enough && sum < DELTA_STEP * DELTA_DOWN && expected > 1 {
        expected := expected / 2;
      }
      index := index + 1;
    }
    return Some(Value(expected));
  }

  // ----- The rule in plain numbers -----

  // Where nothing exceeds a word.
  predicate Fits(v: seq<Point>) {
    forall k :: 0 <= k < |v| ==> 3 * v[k].delta < WORD && 2 * v[k].constant < WORD
  }

  // The constant doubles where the last three deltas are above four thousand million on
  // average, and halves where they are below one thousand million, but not below one.
  predicate Moves(v: seq<Point>, k: nat)
    requires 3 <= k < |v|
  {
    var average, before := (v[k - 3].delta + v[k - 2].delta + v[k - 1].delta) as real / 3.0, v[k - 1].constant;
    v[k].constant == if average > 4000000000.0 then 2 * before else if average < 1000000000.0 && before > 1 then before / 2 else before
  }

  lemma AcceptedInNumbers(v: seq<Point>)
    requires Fits(v)
    ensures Accepted(v) <==> forall k :: 3 <= k < |v| ==> Moves(v, k)
  {
    forall k | 3 <= k < |v| ensures OkAt(v, k) <==> Moves(v, k) { OkInNumbers(v, k); }
    if Accepted(v) { forall k | 3 <= k < |v| ensures Moves(v, k) { assert OkAt(v, k); } }
    if forall k :: 3 <= k < |v| ==> Moves(v, k) { forall k | DELTA_STEP <= k < |v| ensures OkAt(v, k) { assert Moves(v, k); } }
  }

  lemma ThirdOf(sum: nat, x: nat)
    ensures sum as real / 3.0 > x as real <==> sum > 3 * x
    ensures sum as real / 3.0 < x as real <==> sum < 3 * x
  {}

  lemma OkInNumbers(v: seq<Point>, k: nat)
    requires Fits(v) && 3 <= k < |v|
    ensures OkAt(v, k) <==> Moves(v, k)
  {
    var sum := v[k - 3].delta + v[k - 2].delta + v[k - 1].delta;
    assert 3 * sum < 3 * WORD && 2 * v[k - 1].constant < WORD;
    ThirdOf(sum, 4000000000);
    ThirdOf(sum, 1000000000);
  }

  // ----- Windows of a chain -----

  // Both the miner and a validator start three headers back, or at the genesis.
  function From(last: nat): nat {
    if last + 1 >= DELTA_STEP then last + 1 - DELTA_STEP else 0
  }

  lemma ExpectedInWindow(chain: seq<Point>, from: nat, k: nat)
    requires from < |chain| && 0 < k <= |chain| - from && (from == 0 || k >= DELTA_STEP)
    ensures Expected(chain[from..], k) == Expected(chain, from + k)
  {
    var v := chain[from..];
    assert v[k - 1] == chain[from + k - 1];
    if k >= DELTA_STEP { assert v[k - 2] == chain[from + k - 2] && v[k - 3] == chain[from + k - 3]; }
  }

  // Whatever the last common block, a validator accepts exactly when every later header
  // follows the rule on the whole chain.
  lemma ValidatorWindow(chain: seq<Point>, common: nat)
    requires common < |chain|
    ensures Accepted(chain[From(common)..]) <==>
            forall k :: Max(DELTA_STEP, common + 1) <= k < |chain| ==> OkAt(chain, k)
  {
    var from := From(common);
    var v := chain[from..];
    forall k | Max(DELTA_STEP, common + 1) <= k < |chain|
      ensures OkAt(chain, k) <==> OkAt(v, k - from)
    {
      ExpectedInWindow(chain, from, k - from);
      assert v[k - from] == chain[k];
    }
    if Accepted(v) {
      forall k | Max(DELTA_STEP, common + 1) <= k < |chain| ensures OkAt(chain, k) { assert OkAt(v, k - from); }
    }
    if forall k :: Max(DELTA_STEP, common + 1) <= k < |chain| ==> OkAt(chain, k) {
      forall j | DELTA_STEP <= j < |v| ensures OkAt(v, j) { assert OkAt(chain, j + from); }
    }
  }

  // The miner's own window never looks wrong, and its value is the one the whole chain asks for.
  lemma MinerWindow(chain: seq<Point>)
    requires chain != []
    ensures var v := chain[From(|chain| - 1)..];
            v != [] && Accepted(v) && Expected(v, |v|) == Expected(chain, |chain|)
  {
    ExpectedInWindow(chain, From(|chain| - 1), |chain| - From(|chain| - 1));
  }

  // A header mined on a chain that follows the rule is accepted by every validator, from
  // whatever earlier block the validator starts - and by none if its constant is another.
  // Among the first three headers of a chain any constant is accepted.
  lemma MinedIsAccepted(chain: seq<Point>, mined: Point, common: nat)
    requires chain != [] && Accepted(chain) && common < |chain|
    ensures Accepted((chain + [mined])[From(common)..]) <==>
            || |chain| < DELTA_STEP
            || mined.constant == Expected(chain[From(|chain| - 1)..], |chain| - From(|chain| - 1))
  {
    var longer := chain + [mined];
    ValidatorWindow(longer, common);
    MinerWindow(chain);
    assert Expected(longer, |chain|) == Expected(chain, |chain|);
    forall k | DELTA_STEP <= k < |chain| ensures OkAt(longer, k) {
      assert OkAt(chain, k);
      assert Expected(longer, k) == Expected(chain, k);
    }
    assert |chain| >= DELTA_STEP ==> (OkAt(longer, |chain|) <==> mined.constant == Expected(chain, |chain|));
  }
}
