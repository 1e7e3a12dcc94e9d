/** Runs of steps that may fail, and their undoing from the last step to the first. */
module Runs {
  import opened Basics

  // From the first step to the last; None as soon as one fails.
  function Run<S, B>(step: (S, B) -> Option<S>, s: S, run: seq<B>): Option<S> {
    if run == [] then Some(s)
    else
      var before := Run(step, s, run[..|run| - 1]);
      if before.None? then None else step(before.value, run[|run| - 1])
  }

  // From the last step to the first.
  function Unrun<S, B>(back: (S, B) -> Option<S>, s: S, run: seq<B>): Option<S>
    decreases |run|
  {
    if run == [] then Some(s)
    else
      var before := back(s, run[|run| - 1]);
      if before.None? then None else Unrun(back, before.value, run[..|run| - 1])
  }

  // The state in which step `n` is made.
  function At<S, B>(step: (S, B) -> Option<S>, s: S, run: seq<B>, n: nat): Option<S>
    requires n <= |run|
  {
    Run(step, s, run[..n])
  }

  lemma {:induction false} RunPrefix<S, B>(step: (S, B) -> Option<S>, s: S, run: seq<B>, n: nat)
    requires n <= |run| && Run(step, s, run).Some?
    ensures Run(step, s, run[..n]).Some?
    decreases |run|
  {
    if n == |run| {
      assert run[..n] == run;
    } else {
      assert run[..|run| - 1][..n] == run[..n];
      RunPrefix(step, s, run[..|run| - 1], n);
    }
  }

  // First one run, then another from where it ends.
  lemma {:induction false} RunJoins<S, B>(step: (S, B) -> Option<S>, s: S, first: seq<B>, second: seq<B>)
    requires Run(step, s, first).Some?
    ensures Run(step, s, first + second) == Run(step, Run(step, s, first).value, second)
  {
    if second == [] {
      assert first + second == first;
    } else {
      RunJoins(step, s, first, second[..|second| - 1]);
      assert (first + second)[..|first + second| - 1] == first + second[..|second| - 1];
    }
  }

  lemma {:induction false} RunKeeps<S, B>(step: (S, B) -> Option<S>, good: S -> bool, s: S, run: seq<B>)
    requires good(s) && Run(step, s, run).Some?
    requires forall m, b :: good(m) && step(m, b).Some? ==> good(step(m, b).value)
    ensures good(Run(step, s, run).value)
  {
    if run == [] {
    } else {
      RunKeeps(step, good, s, run[..|run| - 1]);
    }
  }

  // Step by step undone is undone.
  lemma {:induction false} UnrunUndoes<S, B>(step: (S, B) -> Option<S>, back: (S, B) -> Option<S>, s: S, run: seq<B>)
    requires Run(step, s, run).Some?
    requires forall n :: 0 <= n < |run| && At(step, s, run, n).Some? && step(At(step, s, run, n).value, run[n]).Some? ==>
               back(step(At(step, s, run, n).value, run[n]).value, run[n]) == At(step, s, run, n)
    ensures Unrun(back, Run(step, s, run).value, run) == Some(s)
  {
    if run == [] {
    } else {
      var init := run[..|run| - 1];
      assert At(step, s, run, |run| - 1) == Run(step, s, init);
      forall n | 0 <= n < |init| && At(step, s, init, n).Some? && step(At(step, s, init, n).value, init[n]).Some?
        ensures back(step(At(step, s, init, n).value, init[n]).value, init[n]) == At(step, s, init, n)
      {
        assert init[..n] == run[..n];
        assert At(step, s, init, n) == At(step, s, run, n);
      }
      UnrunUndoes(step, back, s, init);
    }
  }

  // ----- What holds, and what adds up, along a run -----

  predicate HoldsAt<S, B>(step: (S, B) -> Option<S>, s: S, run: seq<B>, good: (S, B) -> bool, n: nat)
    requires n < |run|
  {
    At(step, s, run, n).Some? ==> good(At(step, s, run, n).value, run[n])
  }

  // Whenever a step is made, it is a good one.
  predicate Throughout<S, B>(step: (S, B) -> Option<S>, s: S, run: seq<B>, good: (S, B) -> bool) {
    forall n :: 0 <= n < |run| ==> HoldsAt(step, s, run, good, n)
  }

  lemma ThroughoutLast<S, B>(step: (S, B) -> Option<S>, s: S, run: seq<B>, good: (S, B) -> bool)
    requires run != []
    ensures var n := |run| - 1;
            Throughout(step, s, run, good) <==> Throughout(step, s, run[..n], good) && HoldsAt(step, s, run, good, n)
  {
    var n := |run| - 1;
    forall k | 0 <= k < n ensures HoldsAt(step, s, run[..n], good, k) <==> HoldsAt(step, s, run, good, k) {
      assert run[..n][..k] == run[..k];
    }
  }

  function Sum<S, B>(step: (S, B) -> Option<S>, s: S, run: seq<B>, f: (S, B) -> nat): nat {
    if run == [] then 0
    else
      var before := Run(step, s, run[..|run| - 1]);
      Sum(step, s, run[..|run| - 1], f) + if before.Some? then f(before.value, run[|run| - 1]) else 0
  }

  // If every step changes a value by what comes in and what goes out, so does the run.
  lemma {:induction false} RunBalances<S, B>(step: (S, B) -> Option<S>, value: S -> nat,
      in1: (S, B) -> nat, in2: (S, B) -> nat, out1: (S, B) -> nat, out2: (S, B) -> nat, s: S, run: seq<B>)
    requires forall m, b :: step(m, b).Some? ==>
               value(step(m, b).value) + out1(m, b) + out2(m, b) == value(m) + in1(m, b) + in2(m, b)
    requires Run(step, s, run).Some?
    ensures value(Run(step, s, run).value) + Sum(step, s, run, out1) + Sum(step, s, run, out2)
            == value(s) + Sum(step, s, run, in1) + Sum(step, s, run, in2)
  {
    if run == [] {
    } else {
      RunBalances(step, value, in1, in2, out1, out2, s, run[..|run| - 1]);
    }
  }

  // If every quiet step lets a value grow by at least `due`, by exactly that if and only if it
  // is a fair one, then a quiet run does so if and only if all its steps are fair.
  lemma {:induction false} RunGrows<S, B>(step: (S, B) -> Option<S>, value: S -> nat, due: (S, B) -> nat,
      quiet: (S, B) -> bool, fair: (S, B) -> bool, s: S, run: seq<B>)
    requires forall m, b :: step(m, b).Some? && quiet(m, b) ==>
               && value(step(m, b).value) >= value(m) + due(m, b)
               && (value(step(m, b).value) == value(m) + due(m, b) <==> fair(m, b))
    requires Run(step, s, run).Some? && Throughout(step, s, run, quiet)
    ensures value(Run(step, s, run).value) >= value(s) + Sum(step, s, run, due)
    ensures value(Run(step, s, run).value) == value(s) + Sum(step, s, run, due) <==> Throughout(step, s, run, fair)
  {
    if run == [] {
    } else {
      ThroughoutLast(step, s, run, quiet);
      ThroughoutLast(step, s, run, fair);
      RunGrows(step, value, due, quiet, fair, s, run[..|run| - 1]);
      assert HoldsAt(step, s, run, quiet, |run| - 1);
    }
  }

  function SumFrom(g: nat -> nat, first: nat, n: nat): nat {
    if n == 0 then 0 else SumFrom(g, first, n - 1) + g(first + n - 1)
  }

  // Where every step counts up by one, a sum of what depends on the count is a sum over a range.
  lemma {:induction false} RunCounts<S, B>(step: (S, B) -> Option<S>, count: S -> nat, f: (S, B) -> nat, g: nat -> nat, s: S, run: seq<B>)
    requires forall m, b :: step(m, b).Some? ==> count(step(m, b).value) == count(m) + 1
    requires forall m, b :: f(m, b) == g(count(m))
    requires Run(step, s, run).Some?
    ensures count(Run(step, s, run).value) == count(s) + |run|
    ensures Sum(step, s, run, f) == SumFrom(g, count(s), |run|)
  {
    if run == [] {
    } else {
      RunCounts(step, count, f, g, s, run[..|run| - 1]);
    }
  }

  lemma {:induction false} SumOfNothing<S, B>(step: (S, B) -> Option<S>, f: (S, B) -> nat, s: S, run: seq<B>)
    requires forall m, b :: f(m, b) == 0
    ensures Sum(step, s, run, f) == 0
  {
    if run == [] {
    } else {
      SumOfNothing(step, f, s, run[..|run| - 1]);
    }
  }

  // If every step adds to a value, so does the run.
  lemma RunAdds<S, B>(step: (S, B) -> Option<S>, value: S -> nat, added: (S, B) -> nat, s: S, run: seq<B>)
    requires forall m, b :: step(m, b).Some? ==> value(step(m, b).value) == value(m) + added(m, b)
    requires Run(step, s, run).Some?
    ensures value(Run(step, s, run).value) == value(s) + Sum(step, s, run, added)
  {
    var nothing := (_: S, _: B) => 0;
    RunBalances(step, value, added, nothing, nothing, nothing, s, run);
    SumOfNothing(step, nothing, s, run);
  }

  // If a step can be undone exactly if it was a good one, then so can a run.
  lemma {:induction false} UnrunExactly<S, B>(step: (S, B) -> Option<S>, back: (S, B) -> Option<S>, good: (S, B) -> bool, s: S, run: seq<B>)
    requires forall m, b :: step(m, b).Some? ==> back(step(m, b).value, b) == if good(m, b) then Some(m) else None
    requires Run(step, s, run).Some?
    ensures Unrun(back, Run(step, s, run).value, run) == if Throughout(step, s, run, good) then Some(s) else None
  {
    if run == [] {
    } else {
      UnrunExactly(step, back, good, s, run[..|run| - 1]);
      ThroughoutLast(step, s, run, good);
    }
  }
}
