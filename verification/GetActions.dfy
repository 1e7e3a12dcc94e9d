/**
 How a client follows the action log: the node answers with a compressed window of the log,
 the client replays it on its own stack and asks again from where the window ended.
 */
module GetActions {
  import opened Basics
  import opened ActionLogs

  const ACTION_LOG_MAX_RESPONSE: nat := 10000

  // ----- The size of what is sent -----

  function ActionSize(a: Action): (n: nat)
    ensures n >= 1
  {
    match a
    case Block(b) => 1 + |b.rewards| + |b.transactions| + |b.impacts| + |b.applied|
    case Transaction(_) => 1
  }

  function Size(entries: seq<Entry>): nat {
    if entries == [] then 0 else Size(entries[..|entries| - 1]) + ActionSize(entries[|entries| - 1].action)
  }

  lemma SizeOfMore(entries: seq<Entry>, e: Entry)
    ensures Size(entries + [e]) == Size(entries) + ActionSize(e.action)
  {
    assert (entries + [e])[..|entries|] == entries;
  }

  // ----- Windows of the log -----

  // Reverts of entries the client already has, then entries it has to apply.
  datatype Window = Window(reverts: seq<Entry>, applies: seq<Entry>) {
    function Entries(): seq<Entry> { reverts + applies }
  }

  // The window with the entry found at `end`.
  function Next(e: Entry, start: nat, end: nat, w: Window): Window {
    if e.kind.Apply? then w.(applies := w.applies + [e.(index := end)])
    else if e.index < start then w.(reverts := w.reverts + [e.(index := end)])
    else if w.applies == [] then w
    else w.(applies := w.applies[..|w.applies| - 1])
  }

  function Compressed(log: seq<Entry>, start: nat, end: nat): Window
    requires start <= end <= |log|
  {
    if start == end then Window([], [])
    else Next(log[end - 1], start, end - 1, Compressed(log, start, end - 1))
  }

  function Positions(entries: seq<Entry>): seq<nat> {
    seq(|entries|, i requires 0 <= i < |entries| => entries[i].index)
  }

  ghost predicate Within(entries: seq<Entry>, start: nat, end: nat) {
    && (forall i :: 0 <= i < |entries| ==> start <= entries[i].index < end)
    && forall i, j :: 0 <= i < j < |entries| ==> entries[i].index < entries[j].index
  }

  ghost predicate FromLog(log: seq<Entry>, entries: seq<Entry>, kind: Logging) {
    forall i :: 0 <= i < |entries| ==>
      && entries[i].kind == kind && entries[i].index < |log|
      && log[entries[i].index].kind == kind && log[entries[i].index].action == entries[i].action
  }

  // The part of the client's stack that survives, then the positions to apply.
  ghost predicate Shape(log: seq<Entry>, start: nat, end: nat, w: Window)
    requires start <= end <= |log|
  {
    var had := Stack(log[..start]);
    && |w.reverts| <= |had|
    && Stack(log[..end]) == had[..|had| - |w.reverts|] + Positions(w.applies)
    && FromLog(log, w.reverts, Revert) && FromLog(log, w.applies, Apply)
    && Within(w.Entries(), start, end)
  }

  lemma WithinMore(entries: seq<Entry>, start: nat, end: nat, e: Entry)
    requires Within(entries, start, end) && e.index == end && start <= end
    ensures Within(entries + [e], start, end + 1)
  {}

  lemma WithinLess(entries: seq<Entry>, start: nat, end: nat)
    requires Within(entries, start, end) && entries != []
    ensures Within(entries[..|entries| - 1], start, end + 1)
  {}

  lemma FromLogMore(log: seq<Entry>, entries: seq<Entry>, end: nat)
    requires end < |log| && FromLog(log, entries, log[end].kind)
    ensures FromLog(log, entries + [log[end].(index := end)], log[end].kind)
  {}

  lemma PushedPositions(log: seq<Entry>, end: nat, kept: seq<nat>, applies: seq<Entry>)
    requires end < |log| && log[end].kind.Apply? && Stack(log[..end]) == kept + Positions(applies)
    ensures Stack(log[..end + 1]) == kept + Positions(applies + [log[end].(index := end)])
  {
    StackStep(log, end);
    assert Positions(applies + [log[end].(index := end)]) == Positions(applies) + [end];
  }

  lemma ApplyStep(log: seq<Entry>, start: nat, end: nat, w: Window)
    requires start <= end < |log| && Shape(log, start, end, w) && log[end].kind.Apply?
    ensures Shape(log, start, end + 1, Next(log[end], start, end, w))
  {
    var e, w' := log[end].(index := end), Next(log[end], start, end, w);
    PushedPositions(log, end, Stack(log[..start])[..|Stack(log[..start])| - |w.reverts|], w.applies);
    assert w'.Entries() == w.Entries() + [e];
    WithinMore(w.Entries(), start, end, e);
    FromLogMore(log, w.applies, end);
  }

  // The entry reverted at `end` and where it was applied.
  lemma RevertedEntry(log: seq<Entry>, end: nat)
    requires OkLog(log) && end < |log| && log[end].kind.Revert?
    ensures Stack(log[..end]) != []
    ensures var top := Top(log[..end]);
            top < end && log[end].index == top && log[end].action == log[top].action
  {
    assert OkEntry(log, end);
    StackAscends(log[..end]);
    assert OkEntry(log, Top(log[..end]));
  }

  lemma FromLogLess(log: seq<Entry>, entries: seq<Entry>, kind: Logging)
    requires FromLog(log, entries, kind) && entries != []
    ensures FromLog(log, entries[..|entries| - 1], kind)
  {}

  lemma LastDropped<T>(a: seq<T>, b: seq<T>)
    requires b != []
    ensures a + b[..|b| - 1] == (a + b)[..|a + b| - 1]
  {}

  lemma PositionsLess(entries: seq<Entry>)
    requires entries != []
    ensures Positions(entries[..|entries| - 1]) == Positions(entries)[..|entries| - 1]
  {}

  // An entry of the window is reverted: the window forgets it.
  lemma Forgotten(log: seq<Entry>, start: nat, end: nat, w: Window)
    requires start <= end < |log| && Shape(log, start, end, w) && log[end].kind.Revert? && w.applies != []
    ensures Shape(log, start, end + 1, w.(applies := w.applies[..|w.applies| - 1]))
  {
    PoppedPositions(log, end, Stack(log[..start])[..|Stack(log[..start])| - |w.reverts|], w.applies);
    LastDropped(w.reverts, w.applies);
    FromLogLess(log, w.applies, Apply);
    WithinLess(w.Entries(), start, end);
  }

  lemma PoppedPositions(log: seq<Entry>, end: nat, kept: seq<nat>, applies: seq<Entry>)
    requires end < |log| && log[end].kind.Revert? && applies != [] && Stack(log[..end]) == kept + Positions(applies)
    ensures Stack(log[..end + 1]) == kept + Positions(applies[..|applies| - 1])
  {
    StackStep(log, end);
    PositionsLess(applies);
    LastDropped(kept, Positions(applies));
  }

  lemma TopOfWindow(log: seq<Entry>, start: nat, end: nat, w: Window)
    requires start <= end <= |log| && Shape(log, start, end, w) && w.applies != []
    ensures Stack(log[..end]) != [] && Top(log[..end]) == w.applies[|w.applies| - 1].index >= start
    ensures Top(log[..end]) < |log| && log[Top(log[..end])].action == w.applies[|w.applies| - 1].action
  {
    assert w.Entries()[|w.Entries()| - 1] == w.applies[|w.applies| - 1];
  }

  lemma PopStep(log: seq<Entry>, start: nat, end: nat, w: Window)
    requires OkLog(log) && start <= end < |log| && Shape(log, start, end, w)
    requires log[end].kind.Revert? && w.applies != []
    ensures log[end].index >= start && w.applies[|w.applies| - 1].action == log[end].action
    ensures Shape(log, start, end + 1, Next(log[end], start, end, w))
  {
    RevertedEntry(log, end);
    TopOfWindow(log, start, end, w);
    Forgotten(log, start, end, w);
  }

  // An entry from before the window is reverted: the client has to be told.
  lemma Told(log: seq<Entry>, start: nat, end: nat, w: Window)
    requires start <= end < |log| && Shape(log, start, end, w) && log[end].kind.Revert? && w.applies == []
    requires Stack(log[..end]) != []
    ensures Shape(log, start, end + 1, w.(reverts := w.reverts + [log[end].(index := end)]))
  {
    var had := Stack(log[..start]);
    var w' := w.(reverts := w.reverts + [log[end].(index := end)]);
    StackStep(log, end);
    assert Positions(w.applies) == [];
    assert Stack(log[..end]) == had[..|had| - |w.reverts|];
    assert had[..|had| - |w.reverts|][..|had| - |w.reverts| - 1] == had[..|had| - |w'.reverts|];
    assert w'.Entries() == w.Entries() + [log[end].(index := end)];
    WithinMore(w.Entries(), start, end, log[end].(index := end));
    FromLogMore(log, w.reverts, end);
  }

  lemma TopBelowWindow(log: seq<Entry>, start: nat, end: nat, w: Window)
    requires start <= end <= |log| && Shape(log, start, end, w) && w.applies == [] && Stack(log[..end]) != []
    ensures Top(log[..end]) < start
  {
    assert Positions(w.applies) == [];
    var had := Stack(log[..start]);
    assert Stack(log[..end]) == had[..|had| - |w.reverts|];
    StackAscends(log[..start]);
  }

  lemma RevertStep(log: seq<Entry>, start: nat, end: nat, w: Window)
    requires OkLog(log) && start <= end < |log| && Shape(log, start, end, w)
    requires log[end].kind.Revert? && w.applies == []
    ensures log[end].index < start
    ensures Shape(log, start, end + 1, Next(log[end], start, end, w))
  {
    RevertedEntry(log, end);
    TopBelowWindow(log, start, end, w);
    Told(log, start, end, w);
  }

  lemma WindowStep(log: seq<Entry>, start: nat, end: nat, w: Window)
    requires OkLog(log) && start <= end < |log| && Shape(log, start, end, w)
    ensures Shape(log, start, end + 1, Next(log[end], start, end, w))
    ensures log[end].kind.Revert? ==> (log[end].index >= start <==> w.applies != [])
    ensures log[end].kind.Revert? && w.applies != [] ==> w.applies[|w.applies| - 1].action == log[end].action
  {
    if log[end].kind.Apply? { ApplyStep(log, start, end, w); }
    else if w.applies != [] { PopStep(log, start, end, w); }
    else { RevertStep(log, start, end, w); }
  }

  lemma {:induction false} WindowShape(log: seq<Entry>, start: nat, end: nat)
    requires OkLog(log) && start <= end <= |log|
    ensures Shape(log, start, end, Compressed(log, start, end))
    decreases end
  {
    if start == end {
      assert Stack(log[..start])[..|Stack(log[..start])|] == Stack(log[..start]);
    } else {
      WindowShape(log, start, end - 1);
      WindowStep(log, start, end - 1, Compressed(log, start, end - 1));
    }
  }

  // ----- Replaying a window -----

  function Actions(log: seq<Entry>, positions: seq<nat>): seq<Action>
    requires forall i :: 0 <= i < |positions| ==> positions[i] < |log|
  {
    seq(|positions|, i requires 0 <= i < |positions| => log[positions[i]].action)
  }

  // The actions in force after the first `n` entries, oldest first.
  function InForce(log: seq<Entry>, n: nat): seq<Action>
    requires n <= |log|
  {
    StackAscends(log[..n]);
    Actions(log, Stack(log[..n]))
  }

  // None where an entry reverts something that is not the last action.
  function Replay(stack: seq<Action>, entries: seq<Entry>): Option<seq<Action>> {
    if entries == [] then Some(stack)
    else
      var before := Replay(stack, entries[..|entries| - 1]);
      var e := entries[|entries| - 1];
      if before.None? then None
      else if e.kind.Apply? then Some(before.value + [e.action])
      else if before.value == [] || before.value[|before.value| - 1] != e.action then None
      else Some(before.value[..|before.value| - 1])
  }

  lemma InForceTop(log: seq<Entry>, end: nat)
    requires OkLog(log) && end < |log|
    ensures log[end].kind.Apply? ==> InForce(log, end + 1) == InForce(log, end) + [log[end].action]
    ensures log[end].kind.Revert? ==>
              && InForce(log, end) != [] && InForce(log, end)[|InForce(log, end)| - 1] == log[end].action
              && InForce(log, end + 1) == InForce(log, end)[..|InForce(log, end)| - 1]
  {
    StackStep(log, end);
    if log[end].kind.Revert? { RevertedEntry(log, end); }
  }

  lemma ReplayMore(stack: seq<Action>, entries: seq<Entry>, e: Entry)
    ensures Replay(stack, entries + [e]) ==
            var r := Replay(stack, entries);
            if r.None? then None
            else if e.kind.Apply? then Some(r.value + [e.action])
            else if r.value == [] || r.value[|r.value| - 1] != e.action then None
            else Some(r.value[..|r.value| - 1])
  {
    assert (entries + [e])[..|entries|] == entries;
  }

  lemma ReplayPopped(stack: seq<Action>, entries: seq<Entry>, last: Entry)
    requires last.kind.Apply? && Replay(stack, entries + [last]).Some?
    ensures var r := Replay(stack, entries + [last]).value;
            r != [] && Replay(stack, entries) == Some(r[..|r| - 1])
  {
    ReplayMore(stack, entries, last);
    var r := Replay(stack, entries + [last]).value;
    assert r[..|r| - 1] == Replay(stack, entries).value;
  }

  // The entry moves `now` to `after`, and the window treats it accordingly.
  ghost predicate Fits(e: Entry, start: nat, w: Window, now: seq<Action>, after: seq<Action>) {
    && (e.kind.Apply? ==> after == now + [e.action])
    && (e.kind.Revert? ==>
          && now != [] && now[|now| - 1] == e.action && after == now[..|now| - 1]
          && (e.index >= start <==> w.applies != [])
          && (w.applies != [] ==> w.applies[|w.applies| - 1].kind.Apply?))
  }

  // What the code does with its stack for one more entry of the log.
  function Stacked(e: Entry, start: nat, i: nat, stack: seq<Entry>): seq<Entry> {
    if e.kind.Revert? && e.index >= start && stack != [] then stack[..|stack| - 1] else stack + [e.(index := i)]
  }

  lemma StackedIsNext(e: Entry, start: nat, i: nat, w: Window)
    requires e.kind.Revert? ==> (e.index >= start <==> w.applies != [])
    ensures Stacked(e, start, i, w.Entries()) == Next(e, start, i, w).Entries()
  {
    var w' := Next(e, start, i, w);
    if e.kind.Revert? && w.applies != [] {
      assert w'.Entries() == w.Entries()[..|w.Entries()| - 1];
    } else {
      assert w'.Entries() == w.Entries() + [e.(index := i)];
    }
  }

  lemma ReplayAdded(stack: seq<Action>, entries: seq<Entry>, e: Entry, now: seq<Action>)
    requires Replay(stack, entries) == Some(now)
    requires e.kind.Revert? ==> now != [] && now[|now| - 1] == e.action
    ensures Replay(stack, entries + [e]) == Some(if e.kind.Apply? then now + [e.action] else now[..|now| - 1])
  {
    ReplayMore(stack, entries, e);
  }

  lemma ReplayDropped(stack: seq<Action>, entries: seq<Entry>, now: seq<Action>)
    requires Replay(stack, entries) == Some(now) && entries != [] && entries[|entries| - 1].kind.Apply?
    ensures now != [] && Replay(stack, entries[..|entries| - 1]) == Some(now[..|now| - 1])
  {
    assert entries == entries[..|entries| - 1] + [entries[|entries| - 1]];
    ReplayPopped(stack, entries[..|entries| - 1], entries[|entries| - 1]);
  }

  lemma ReplayOneMore(stack: seq<Action>, e: Entry, start: nat, end: nat, w: Window, now: seq<Action>, after: seq<Action>)
    requires Replay(stack, w.Entries()) == Some(now) && Fits(e, start, w, now, after)
    ensures Replay(stack, Next(e, start, end, w).Entries()) == Some(after)
  {
    StackedIsNext(e, start, end, w);
    if e.kind.Revert? && w.applies != [] {
      LastIsApplied(w);
      ReplayDropped(stack, w.Entries(), now);
    } else {
      ReplayAdded(stack, w.Entries(), e.(index := end), now);
    }
  }

  lemma LastIsApplied(w: Window)
    requires w.applies != []
    ensures w.Entries() != [] && w.Entries()[|w.Entries()| - 1] == w.applies[|w.applies| - 1]
  {}

  lemma StepFacts(log: seq<Entry>, start: nat, end: nat, w: Window)
    requires OkLog(log) && start <= end < |log| && log[end].kind.Revert? && w == Compressed(log, start, end)
    ensures log[end].index >= start <==> w.applies != []
    ensures w.applies != [] ==> w.applies[|w.applies| - 1].kind.Apply? && w.applies[|w.applies| - 1].action == log[end].action
  {
    WindowShape(log, start, end);
    WindowStep(log, start, end, w);
  }

  lemma StepFits(log: seq<Entry>, start: nat, end: nat, w: Window)
    requires OkLog(log) && start <= end < |log| && w == Compressed(log, start, end)
    ensures Fits(log[end], start, w, InForce(log, end), InForce(log, end + 1))
  {
    InForceTop(log, end);
    if log[end].kind.Revert? { StepFacts(log, start, end, w); }
  }

  // Whoever knows what was in force at the start of a window knows, after replaying it, what
  // is in force at its end.
  lemma {:induction false} ReplayOfWindow(log: seq<Entry>, start: nat, end: nat)
    requires OkLog(log) && start <= end <= |log|
    ensures Replay(InForce(log, start), Compressed(log, start, end).Entries()) == Some(InForce(log, end))
    decreases end
  {
    if start == end {
    } else {
      var w, had := Compressed(log, start, end - 1), InForce(log, start);
      var now, after := InForce(log, end - 1), InForce(log, end);
      assert Fits(log[end - 1], start, w, now, after) by { StepFits(log, start, end - 1, w); }
      assert Replay(had, w.Entries()) == Some(now) by { ReplayOfWindow(log, start, end - 1); }
      ReplayOneMore(had, log[end - 1], start, end - 1, w, now, after);
    }
  }

  // ----- Where to go on -----

  // After the last revert the client keeps what the window leaves of its stack.
  ghost predicate LastRevert(log: seq<Entry>, had: seq<nat>, reverts: seq<Entry>) {
    reverts != [] ==>
      var p := reverts[|reverts| - 1].index;
      p < |log| && |reverts| <= |had| && Stack(log[..p + 1]) == had[..|had| - |reverts|]
  }

  lemma LastRevertStep(log: seq<Entry>, start: nat, end: nat, w: Window)
    requires start <= end < |log| && LastRevert(log, Stack(log[..start]), w.reverts)
    requires Shape(log, start, end + 1, Next(log[end], start, end, w))
    requires log[end].kind.Revert? ==> (log[end].index >= start <==> w.applies != [])
    ensures LastRevert(log, Stack(log[..start]), Next(log[end], start, end, w).reverts)
  {
    var had, w' := Stack(log[..start]), Next(log[end], start, end, w);
    if w'.reverts != w.reverts {
      assert Positions(w'.applies) == [];
      assert w'.reverts[|w'.reverts| - 1].index == end;
    }
  }

  lemma {:induction false} LastRevertOf(log: seq<Entry>, start: nat, end: nat)
    requires OkLog(log) && start <= end <= |log|
    ensures LastRevert(log, Stack(log[..start]), Compressed(log, start, end).reverts)
    decreases end
  {
    if start == end {
    } else {
      LastRevertOf(log, start, end - 1);
      WindowShape(log, start, end);
      var w := Compressed(log, start, end - 1);
      if log[end - 1].kind.Revert? { StepFacts(log, start, end - 1, w); }
      LastRevertStep(log, start, end - 1, w);
    }
  }

  lemma RestartAfterApply(log: seq<Entry>, start: nat, end: nat, w: Window)
    requires start <= end <= |log| && Shape(log, start, end, w) && w.applies != []
    ensures var p := w.applies[|w.applies| - 1].index;
            start <= p < end && Stack(log[..p + 1]) == Stack(log[..end])
  {
    TopOfWindow(log, start, end, w);
    StackAtTop(log, end);
    LastIsApplied(w);
  }

  // Right after the entry on top of the stack was applied, the stack was the same.
  lemma StackAtTop(log: seq<Entry>, end: nat)
    requires end <= |log| && Stack(log[..end]) != []
    ensures Top(log[..end]) < end && Stack(log[..Top(log[..end]) + 1]) == Stack(log[..end])
  {
    var k := |Stack(log[..end])| - 1;
    var p := Stack(log[..end])[k];
    StackBelow(log[..end], k);
    assert log[..end][..p + 1] == log[..p + 1];
    assert Stack(log[..end])[..k + 1] == Stack(log[..end]);
  }

  lemma RestartAfterRevert(log: seq<Entry>, start: nat, end: nat, w: Window)
    requires start <= end <= |log| && Shape(log, start, end, w) && w.applies == [] && w.reverts != []
    requires LastRevert(log, Stack(log[..start]), w.reverts)
    ensures var p := w.reverts[|w.reverts| - 1].index;
            start <= p < end && Stack(log[..p + 1]) == Stack(log[..end])
  {
    assert Positions(w.applies) == [];
    assert w.Entries()[|w.Entries()| - 1] == w.reverts[|w.reverts| - 1];
  }

  lemma SameInForce(log: seq<Entry>, n: nat, m: nat)
    requires n <= |log| && m <= |log| && Stack(log[..n]) == Stack(log[..m])
    ensures InForce(log, n) == InForce(log, m)
  {}

  // After the last entry of a window the same actions are in force as at its end, so the
  // client may go on from there.
  lemma RestartIsConsistent(log: seq<Entry>, start: nat, end: nat)
    requires OkLog(log) && start <= end <= |log| && Compressed(log, start, end).Entries() != []
    ensures var entries := Compressed(log, start, end).Entries();
            var next := entries[|entries| - 1].index + 1;
            start < next <= end && InForce(log, next) == InForce(log, end)
  {
    WindowShape(log, start, end);
    LastRevertOf(log, start, end);
    RestartOf(log, start, end, Compressed(log, start, end));
  }

  lemma RestartOf(log: seq<Entry>, start: nat, end: nat, w: Window)
    requires start <= end <= |log| && Shape(log, start, end, w) && w.Entries() != []
    requires LastRevert(log, Stack(log[..start]), w.reverts)
    ensures var next := w.Entries()[|w.Entries()| - 1].index + 1;
            start < next <= end && InForce(log, next) == InForce(log, end)
  {
    var p := RestartPosition(log, start, end, w);
    SameInForce(log, p + 1, end);
  }

  lemma RestartPosition(log: seq<Entry>, start: nat, end: nat, w: Window) returns (p: nat)
    requires start <= end <= |log| && Shape(log, start, end, w) && w.Entries() != []
    requires LastRevert(log, Stack(log[..start]), w.reverts)
    ensures p == w.Entries()[|w.Entries()| - 1].index && start <= p < end && Stack(log[..p + 1]) == Stack(log[..end])
  {
    if w.applies != [] {
      RestartAfterApply(log, start, end, w);
      LastIsApplied(w);
      p := w.applies[|w.applies| - 1].index;
    } else {
      RestartAfterRevert(log, start, end, w);
      p := w.reverts[|w.reverts| - 1].index;
    }
  }

  // ----- The request -----

  function Limit(maxCount: nat): nat {
    if maxCount < ACTION_LOG_MAX_RESPONSE then maxCount else ACTION_LOG_MAX_RESPONSE
  }

  ghost predicate AllReverts(log: seq<Entry>, start: nat, end: nat)
    requires start <= end <= |log|
  {
    forall k :: start <= k < end ==> log[k].kind.Revert?
  }

  // Only reverts are left, and they do not fill the answer: the code reads past the end.
  ghost predicate Stuck(log: seq<Entry>, start: nat, max: nat) {
    && start < |log| && AllReverts(log, start, |log|)
    && Size(log[start..]) < max
  }

  // A block that was applied and reverted: asking from behind it cannot be answered.
  lemma StuckExample(block: Action)
    requires ActionSize(block) < ACTION_LOG_MAX_RESPONSE
    ensures var log := [Entry(Apply, 0, block), Entry(Revert, 0, block)];
            OkLog(log) && Stuck(log, 1, ACTION_LOG_MAX_RESPONSE)
  {
    var none: seq<Entry> := [];
    assert OkLog(none);
    OkAppended(none, Entry(Apply, 0, block));
    var one := none + [Entry(Apply, 0, block)];
    assert Stack(one) == [0];
    OkAppended(one, Entry(Revert, 0, block));
    var log := [Entry(Apply, 0, block), Entry(Revert, 0, block)];
    assert one + [Entry(Revert, 0, block)] == log;
    SizeOfMore(none, log[1]);
    assert log[1..] == none + [log[1]];
  }

  lemma SizeOfRange(log: seq<Entry>, start: nat, i: nat)
    requires start <= i < |log|
    ensures Size(log[start..i + 1]) == Size(log[start..i]) + ActionSize(log[i].action)
  {
    assert log[start..i + 1][..i - start] == log[start..i];
  }

  lemma {:induction false} SizeGrows(log: seq<Entry>, start: nat, i: nat)
    requires start <= i <= |log|
    ensures Size(log[start..i]) <= Size(log[start..])
    decreases |log| - i
  {
    if i < |log| {
      SizeOfRange(log, start, i);
      SizeGrows(log, start, i + 1);
    } else {
      assert log[start..i] == log[start..];
    }
  }

  ghost predicate NotFullBefore(log: seq<Entry>, start: nat, end: nat, max: nat)
    requires start <= end <= |log|
  {
    forall e :: start <= e < end ==> Size(Compressed(log, start, e).Entries()) < max
  }

  // The window ends as soon as the answer is full.
  ghost predicate Answer(log: seq<Entry>, start: nat, max: nat, end: nat, actions: seq<Entry>) {
    && start <= end <= |log| && actions == Compressed(log, start, end).Entries()
    && (end < |log| ==> Size(actions) >= max)
    && NotFullBefore(log, start, end, max)
  }

  // Where the loop over the leading reverts stands.
  ghost predicate Leading(log: seq<Entry>, start: nat, i: nat, max: nat, count: nat, stack: seq<Entry>) {
    && start <= i <= |log| && Compressed(log, start, i) == Window(stack, [])
    && count == Size(stack) == Size(log[start..i])
    && AllReverts(log, start, i) && NotFullBefore(log, start, i, max)
  }

  lemma LeadingStep(log: seq<Entry>, start: nat, i: nat, max: nat, count: nat, stack: seq<Entry>)
    requires OkLog(log) && i < |log| && log[i].kind.Revert? && Leading(log, start, i, max, count, stack) && count < max
    ensures Leading(log, start, i + 1, max, count + ActionSize(log[i].action), stack + [log[i].(index := i)])
  {
    LeadingWindow(log, start, i, stack);
    NotFullMore(log, start, i, max);
    SizeOfRange(log, start, i);
    SizeOfMore(stack, log[i].(index := i));
  }

  lemma NoApplies(stack: seq<Entry>)
    ensures Window(stack, []).Entries() == stack
  {}

  // A leading revert is told to the client.
  lemma LeadingWindow(log: seq<Entry>, start: nat, i: nat, stack: seq<Entry>)
    requires OkLog(log) && start <= i < |log| && log[i].kind.Revert? && Compressed(log, start, i) == Window(stack, [])
    ensures Compressed(log, start, i).Entries() == stack
    ensures Compressed(log, start, i + 1) == Window(stack + [log[i].(index := i)], [])
  {
    StepFacts(log, start, i, Window(stack, []));
    NoApplies(stack);
  }

  lemma NotFullMore(log: seq<Entry>, start: nat, i: nat, max: nat)
    requires start <= i < |log| && NotFullBefore(log, start, i, max) && Size(Compressed(log, start, i).Entries()) < max
    ensures NotFullBefore(log, start, i + 1, max)
  {}

  // The loop ends at an applied entry, at the end of an empty range, or with a full answer.
  lemma LeadingEnds(log: seq<Entry>, start: nat, i: nat, max: nat, count: nat, stack: seq<Entry>)
    requires Leading(log, start, i, max, count, stack)
    requires count >= max || i == start == |log| || (i < |log| && log[i].kind.Apply?)
    ensures !Stuck(log, start, max)
  {
    SizeGrows(log, start, i);
  }

  lemma LeadingFails(log: seq<Entry>, start: nat, i: nat, max: nat, count: nat, stack: seq<Entry>)
    requires Leading(log, start, i, max, count, stack) && i == |log| > start && count < max
    ensures Stuck(log, start, max)
  {
    assert log[start..i] == log[start..];
  }

  // The reverts the window begins with; `ok` is false where the code throws.
  method LeadingReverts(log: seq<Entry>, start: nat, max: nat) returns (ok: bool, i: nat, count: nat, stack: seq<Entry>)
    requires OkLog(log) && start <= |log|
    ensures ok <==> !Stuck(log, start, max)
    ensures ok ==> Leading(log, start, i, max, count, stack)
  {
    count, i, stack := 0, start, [];
    var revert := i < |log|;
    while revert && count < max
      invariant Leading(log, start, i, max, count, stack)
      invariant !revert ==> i == |log| == start || (i < |log| && log[i].kind.Apply?)
      invariant revert ==> start < |log|
      decreases |log| - i, revert
    {
      if i >= |log| {
        LeadingFails(log, start, i, max, count, stack);
        return false, i, count, stack;
      }
      revert := log[i].kind.Revert?;
      if revert {
        LeadingStep(log, start, i, max, count, stack);
        count := count + ActionSize(log[i].action);
        stack := stack + [log[i].(index := i)];
        i := i + 1;
      }
    }
    LeadingEnds(log, start, i, max, count, stack);
    ok := true;
  }

  // Where the second loop stands.
  ghost predicate Filling(log: seq<Entry>, start: nat, i: nat, max: nat, count: nat, stack: seq<Entry>) {
    && start <= i <= |log| && stack == Compressed(log, start, i).Entries() && count == Size(stack)
    && NotFullBefore(log, start, i, max)
  }

  lemma RestStep(log: seq<Entry>, start: nat, i: nat, max: nat, count: nat, stack: seq<Entry>)
    requires OkLog(log) && Filling(log, start, i, max, count, stack) && i < |log| && count < max
    ensures Stacked(log[i], start, i, stack) == Compressed(log, start, i + 1).Entries()
    ensures NotFullBefore(log, start, i + 1, max)
    ensures log[i].kind.Revert? && log[i].index >= start ==> stack != []
  {
    if log[i].kind.Revert? { StepFacts(log, start, i, Compressed(log, start, i)); }
    StackedIsNext(log[i], start, i, Compressed(log, start, i));
  }

  lemma StackedSize(e: Entry, start: nat, i: nat, stack: seq<Entry>)
    ensures Size(Stacked(e, start, i, stack)) ==
            if e.kind.Revert? && e.index >= start && stack != [] then Size(stack) - ActionSize(stack[|stack| - 1].action)
            else Size(stack) + ActionSize(e.action)
  {
    SizeOfMore(stack, e.(index := i));
  }

  // Empties the stack into the answer, from the last place to the first.
  method Unstack(stack: seq<Entry>) returns (answer: seq<Entry>)
    ensures answer == stack
  {
    var actions := new Entry[|stack|];
    var rest := stack;
    for i := |stack| downto 0
      invariant rest == stack[..i] && actions[i..] == stack[i..]
    {
      actions[i] := rest[|rest| - 1];
      rest := rest[..|rest| - 1];
    }
    return actions[..];
  }

  // One entry of the second loop.
  method FillOne(log: seq<Entry>, start: nat, i: nat, count: nat, stack: seq<Entry>, ghost max: nat)
    returns (count': nat, stack': seq<Entry>)
    requires OkLog(log) && Filling(log, start, i, max, count, stack) && i < |log| && count < max
    ensures Filling(log, start, i + 1, max, count', stack')
  {
    RestStep(log, start, i, max, count, stack);
    StackedSize(log[i], start, i, stack);
    if log[i].kind.Revert? && log[i].index >= start {
      count' := count - ActionSize(stack[|stack| - 1].action);
      stack' := stack[..|stack| - 1];
    } else {
      count' := count + ActionSize(log[i].action);
      stack' := stack + [log[i].(index := i)];
    }
  }

  lemma FilledIsAnswer(log: seq<Entry>, start: nat, i: nat, max: nat, count: nat, stack: seq<Entry>)
    requires Filling(log, start, i, max, count, stack) && (i == |log| || count >= max)
    ensures Answer(log, start, max, i, stack)
  {}

  lemma LeadingIsFilling(log: seq<Entry>, start: nat, i: nat, max: nat, count: nat, stack: seq<Entry>)
    requires Leading(log, start, i, max, count, stack)
    ensures Filling(log, start, i, max, count, stack)
  {
    assert Window(stack, []).Entries() == stack;
  }

  // `ok` is false where the code throws.
  method Answering(log: ActionLog, start: nat, maxCount: nat) returns (ok: bool, answer: seq<Entry>, ghost end: nat)
    requires log.Valid()
    ensures ok <==> !Stuck(log.actions, start, Limit(maxCount))
    ensures ok && start > |log.actions| ==> answer == []
    ensures ok && start <= |log.actions| ==> Answer(log.actions, start, Limit(maxCount), end, answer)
  {
    var actions := log.actions;
    var len, max := |actions|, Limit(maxCount);
    end := start;
    if start > len { return true, [], start; }
    var i, count, stack;
    ok, i, count, stack := LeadingReverts(actions, start, max);
    if !ok { return false, [], start; }
    LeadingIsFilling(actions, start, i, max, count, stack);
    while i < len && count < max
      invariant i <= len && Filling(actions, start, i, max, count, stack)
    {
      count, stack := FillOne(actions, start, i, count, stack, max);
      i := i + 1;
    }
    FilledIsAnswer(actions, start, i, max, count, stack);
    end := i;
    answer := Unstack(stack);
  }

  lemma {:induction false} EntriesWithinSize(entries: seq<Entry>)
    ensures |entries| <= Size(entries)
  {
    if entries == [] {
    } else {
      EntriesWithinSize(entries[..|entries| - 1]);
    }
  }

  // No answer has more entries than were asked for, nor more than ten thousand.
  lemma AnswerIsBounded(log: seq<Entry>, start: nat, maxCount: nat, end: nat, answer: seq<Entry>)
    requires Answer(log, start, Limit(maxCount), end, answer)
    ensures |answer| <= maxCount && |answer| <= 10000
  {
    if start < end {
      EntriesWithinSize(Compressed(log, start, end - 1).Entries());
    }
  }

  // The first `k` entries revert, the others apply.
  ghost predicate NormalForm(entries: seq<Entry>, k: nat) {
    k <= |entries| && forall i :: 0 <= i < |entries| ==> (entries[i].kind.Revert? <==> i < k)
  }

  // An answer lists what to revert, then what to apply, at growing positions of the window.
  lemma AnswerIsNormal(log: seq<Entry>, start: nat, max: nat, end: nat, answer: seq<Entry>)
    requires OkLog(log) && Answer(log, start, max, end, answer)
    ensures exists k :: NormalForm(answer, k)
    ensures Within(answer, start, end)
  {
    var w := Compressed(log, start, end);
    WindowShape(log, start, end);
    assert NormalForm(answer, |w.reverts|);
  }

  lemma WindowReplays(log: seq<Entry>, start: nat, end: nat, entries: seq<Entry>)
    requires OkLog(log) && start <= end <= |log| && entries == Compressed(log, start, end).Entries()
    ensures Replay(InForce(log, start), entries) == Some(InForce(log, end))
    ensures entries != [] ==>
              var next := entries[|entries| - 1].index + 1;
              start < next <= end && InForce(log, next) == InForce(log, end)
  {
    ReplayOfWindow(log, start, end);
    if entries != [] { RestartIsConsistent(log, start, end); }
  }

  // Replaying an answer leads to what is in force at the end of its window, which is also
  // what is in force where the client asks again; an empty answer means it has caught up.
  lemma AnswerReplays(log: seq<Entry>, start: nat, max: nat, end: nat, answer: seq<Entry>)
    requires OkLog(log) && Answer(log, start, max, end, answer) && max > 0
    ensures Replay(InForce(log, start), answer) == Some(InForce(log, end))
    ensures if answer == [] then end == |log|
            else var next := answer[|answer| - 1].index + 1;
                 start < next <= end && InForce(log, next) == InForce(log, end)
  {
    WindowReplays(log, start, end, answer);
  }
}
