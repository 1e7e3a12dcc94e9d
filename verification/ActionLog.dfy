/**
 The action log of the node: an append-only list of applied and reverted actions.  It
 encodes a stack, and the cached position from which the next revert searches always leads
 to the top of that stack.
 */
module ActionLogs {
  import opened Basics

  // ----- Entries -----

  // What the log keeps of a transaction; the address of the other actions is their owner.
  datatype LoggedAction =
    | Transfer(from: Address, to: Address, amount: Amount)
    | SponsorUnit(sponsor: Address, uri: Uri, start: int, hours: nat, amount: Amount)
    | Owned(owner: Address)
    | AuthorizationUpdate(owner: Address)

  datatype TransactionLog = TransactionLog(hash: Hash, time: int, action: LoggedAction, fee: Amount)

  datatype RewardLog = RewardLog(to: Address, amount: Amount, kind: nat)

  datatype BlockLog = BlockLog(hash: Hash, number: nat, time: int, authority: Address, transactions: seq<TransactionLog>,
                               rewards: seq<RewardLog>, impacts: seq<(Uri, nat)>, applied: seq<(Hash, Amount)>)

  datatype Action = Block(block: BlockLog) | Transaction(tx: TransactionLog)

  datatype Logging = Apply | Revert

  datatype Entry = Entry(kind: Logging, index: nat, action: Action)

  // ----- The stack a log stands for -----

  // Positions of the applied entries that were not reverted, oldest first.
  function Stack(log: seq<Entry>): seq<nat> {
    if log == [] then []
    else
      var before := Stack(log[..|log| - 1]);
      if log[|log| - 1].kind.Apply? then before + [|log| - 1]
      else if before == [] then []
      else before[..|before| - 1]
  }

  function Top(log: seq<Entry>): nat
    requires Stack(log) != []
  {
    Stack(log)[|Stack(log)| - 1]
  }

  // Applied entries carry their position; reverting ones repeat the entry they revert.
  ghost predicate OkEntry(log: seq<Entry>, i: nat)
    requires i < |log|
  {
    if log[i].kind.Apply? then log[i].index == i
    else Stack(log[..i]) != [] && Top(log[..i]) < i && log[i] == log[Top(log[..i])].(kind := Revert)
  }

  ghost predicate OkLog(log: seq<Entry>) {
    forall i :: 0 <= i < |log| ==> OkEntry(log, i)
  }

  lemma StackStep(log: seq<Entry>, i: nat)
    requires i < |log|
    ensures var before := Stack(log[..i]);
            Stack(log[..i + 1]) == if log[i].kind.Apply? then before + [i]
                                   else if before == [] then [] else before[..|before| - 1]
  {
    assert log[..i + 1][..i] == log[..i];
  }

  // Positions grow along the stack, all within the log, and are applied entries.
  lemma {:induction false} StackAscends(log: seq<Entry>)
    ensures forall j :: 0 <= j < |Stack(log)| ==> Stack(log)[j] < |log| && log[Stack(log)[j]].kind.Apply?
    ensures forall j, k :: 0 <= j < k < |Stack(log)| ==> Stack(log)[j] < Stack(log)[k]
  {
    if log == [] {
    } else {
      StackAscends(log[..|log| - 1]);
    }
  }

  // Below an element of the stack lies the stack of the log before it was applied.
  lemma {:induction false} StackBelow(log: seq<Entry>, j: nat)
    requires j < |Stack(log)|
    ensures Stack(log)[j] < |log| && Stack(log[..Stack(log)[j]]) == Stack(log)[..j]
    ensures Stack(log[..Stack(log)[j] + 1]) == Stack(log)[..j + 1]
  {
    StackAscends(log);
    var init := log[..|log| - 1];
    var p := Stack(log)[j];
    if j == |Stack(init)| {
      assert log[..p + 1] == log;
    } else {
      StackBelow(init, j);
      assert init[..p] == log[..p] && init[..p + 1] == log[..p + 1];
      assert Stack(log)[..j] == Stack(init)[..j];
      assert Stack(log)[..j + 1] == Stack(init)[..j + 1];
    }
  }

  lemma OkAppended(log: seq<Entry>, e: Entry)
    requires OkLog(log)
    requires if e.kind.Apply? then e.index == |log|
             else Stack(log) != [] && Top(log) < |log| && e == log[Top(log)].(kind := Revert)
    ensures OkLog(log + [e])
    ensures Stack(log + [e]) == if e.kind.Apply? then Stack(log) + [|log|] else Stack(log)[..|Stack(log)| - 1]
  {
    var log' := log + [e];
    assert log'[..|log|] == log;
    forall i | 0 <= i < |log'| ensures OkEntry(log', i) {
      if i < |log| {
        assert log'[..i] == log[..i];
        assert OkEntry(log, i);
      }
    }
  }

  // ----- The log as an object -----

  // The positions before and after `i`, as unsigned words.
  function Pred(i: nat): nat {
    if i == 0 then WORD - 1 else i - 1
  }

  function Succ(i: nat): nat {
    if i == WORD - 1 then 0 else i + 1
  }

  function Reverting(log: seq<Entry>): Entry
    requires OkLog(log) && Stack(log) != []
  {
    StackAscends(log);
    log[Top(log)].(kind := Revert)
  }

  lemma TopFacts(log: seq<Entry>)
    requires Stack(log) != []
    ensures Top(log) < |log| && log[Top(log)].kind.Apply?
    ensures Stack(log[..Top(log)]) == Stack(log)[..|Stack(log)| - 1]
  {
    StackAscends(log);
    StackBelow(log, |Stack(log)| - 1);
  }

  // The search looks for the top of `target`, with `mark` entries above it still to be skipped.
  ghost predicate Searching(log: seq<Entry>, index: nat, mark: nat, target: seq<nat>) {
    && index < |log| && mark <= |Stack(log[..index + 1])|
    && Stack(log[..index + 1])[..|Stack(log[..index + 1])| - mark] == target
  }

  lemma SearchMore(log: seq<Entry>, index: nat, mark: nat, target: seq<nat>)
    requires OkLog(log) && Searching(log, index, mark, target) && log[index].kind.Revert?
    ensures index > 0 && Searching(log, index - 1, mark + 1, target)
  {
    assert OkEntry(log, index);
    assert log[..0] == [];
    StackStep(log, index);
    var s0, s1 := Stack(log[..index]), Stack(log[..index + 1]);
    assert s1[..|s1| - mark] == s0[..|s0| - (mark + 1)];
  }

  lemma SearchLess(log: seq<Entry>, index: nat, mark: nat, target: seq<nat>)
    requires Searching(log, index, mark, target) && log[index].kind.Apply? && mark > 0
    ensures if index == 0 then target == [] else Searching(log, index - 1, mark - 1, target)
  {
    StackStep(log, index);
    var s0, s1 := Stack(log[..index]), Stack(log[..index + 1]);
    assert s1[..|s1| - mark] == s0[..|s0| - (mark - 1)];
    if index == 0 { assert log[..index] == []; }
  }

  lemma SearchFinds(log: seq<Entry>, index: nat, target: seq<nat>)
    requires Searching(log, index, 0, target) && log[index].kind.Apply?
    ensures target != [] && target[|target| - 1] == index
  {
    StackStep(log, index);
    var s1 := Stack(log[..index + 1]);
    assert s1[..|s1|] == s1;
  }

  // Reverting pops the stack, and the search may go on just before the reverted entry.
  lemma RevertPops(log: seq<Entry>)
    requires OkLog(log) && Stack(log) != []
    ensures var log' := log + [Reverting(log)];
            && OkLog(log') && Stack(log') == Stack(log)[..|Stack(log)| - 1]
            && Top(log) < |log| && Stack(log'[..Top(log)]) == Stack(log')
  {
    TopFacts(log);
    OkAppended(log, Reverting(log));
    assert (log + [Reverting(log)])[..Top(log)] == log[..Top(log)];
  }

  // Nothing after the first `n` entries matters for the search.
  ghost predicate Cached(log: seq<Entry>, n: nat) {
    n <= |log| && Stack(log[..n]) == Stack(log)
  }

  // The search starts at the cached position, or finds nothing if that lies outside.
  lemma SearchStarts(log: seq<Entry>, cached: nat)
    requires cached < WORD && |log| < WORD && (log == [] || Cached(log, Succ(cached)))
    ensures if cached < |log| then Searching(log, cached, 0, Stack(log)) else Stack(log) == []
  {
    assert log[..0] == [];
    if cached < |log| { assert Stack(log[..cached + 1])[..|Stack(log[..cached + 1])|] == Stack(log[..cached + 1]); }
  }

  // The backward search.
  method SearchBack(log: seq<Entry>, start: nat, ghost target: seq<nat>) returns (found: Option<nat>)
    requires OkLog(log) && Searching(log, start, 0, target)
    ensures found == if target == [] then None else Some(target[|target| - 1])
  {
    var index: nat, mark: nat := start, 0;
    while true
      invariant Searching(log, index, mark, target)
      decreases index
    {
      if log[index].kind.Revert? {
        SearchMore(log, index, mark, target);
        mark := mark + 1;
      } else if mark == 0 {
        SearchFinds(log, index, target);
        return Some(index);
      } else {
        SearchLess(log, index, mark, target);
        mark := mark - 1;
      }
      if index == 0 { return None; }
      index := index - 1;
    }
  }

  class ActionLog {
    const enabled: bool
    var actions: seq<Entry>
    var committed: seq<Entry>
    var revertIndex: nat

    // A search from the cached position meets the same top as one from the end; on an empty
    // log the cached position may be stale, and every search fails.
    ghost predicate Valid()
      reads this
    {
      && OkLog(actions) && OkLog(committed) && |actions| < WORD && |committed| < WORD && revertIndex < WORD
      && (actions == [] || Cached(actions, Succ(revertIndex)))
    }

    ghost function Unreverted(): seq<nat>
      reads this
    {
      Stack(actions)
    }

    constructor (stored: seq<Entry>, enabled: bool)
      requires OkLog(stored) && |stored| < WORD
      ensures Valid() && actions == committed == stored && this.enabled == enabled
    {
      this.enabled := enabled;
      actions, committed := stored, stored;
      revertIndex := Pred(|stored|);
      new;
      assert actions[..|actions|] == actions;
    }

    method Length() returns (n: nat)
      ensures n == |actions|
    {
      return |actions|;
    }

    method Commit()
      requires Valid()
      modifies this`committed
      ensures Valid() && committed == actions
    {
      committed := actions;
    }

    method Discard()
      requires Valid()
      modifies this`actions, this`revertIndex
      ensures Valid() && actions == committed
    {
      actions := committed;
      revertIndex := Pred(|actions|);
      assert actions[..|actions|] == actions;
    }

    // The cached position is left as it was.
    method Clear()
      requires Valid()
      modifies this`actions
      ensures Valid() && actions == []
    {
      actions := [];
    }

    method Insert(action: Action)
      requires Valid() && |actions| + 1 < WORD
      modifies this`actions, this`revertIndex
      ensures Valid() && actions == old(actions) + [Entry(Apply, |old(actions)|, action)]
      ensures Unreverted() == old(Unreverted()) + [|old(actions)|]
    {
      OkAppended(actions, Entry(Apply, |actions|, action));
      revertIndex := |actions|;
      actions := actions + [Entry(Apply, |actions|, action)];
      assert actions[..|actions|] == actions;
    }

    method LogAction(action: Action)
      requires Valid() && |actions| + 1 < WORD
      modifies this`actions, this`revertIndex
      ensures Valid()
      ensures actions == if enabled then old(actions) + [Entry(Apply, |old(actions)|, action)] else old(actions)
    {
      if !enabled { return; }
      Insert(action);
    }

    // None where the code throws.
    method FindLast() returns (found: Option<nat>)
      requires Valid()
      ensures found == if Unreverted() == [] then None else Some(Top(actions))
    {
      SearchStarts(actions, revertIndex);
      if revertIndex >= |actions| { return None; }
      found := SearchBack(actions, revertIndex, Stack(actions));
    }

    // `ok` is false where the code throws.
    method Revert() returns (ok: bool)
      requires Valid() && |actions| + 1 < WORD
      modifies this`actions, this`revertIndex
      ensures Valid()
      ensures !enabled ==> ok && actions == old(actions)
      ensures enabled ==> (ok <==> old(Unreverted()) != [])
      ensures !ok ==> actions == old(actions)
      ensures enabled && ok ==>
                && actions == old(actions) + [Reverting(old(actions))]
                && Unreverted() == old(Unreverted())[..|old(Unreverted())| - 1]
    {
      if !enabled { return true; }
      var found := FindLast();
      if found.None? { return false; }
      var index := found.value;
      RevertPops(actions);
      actions := actions + [actions[index].(kind := Logging.Revert)];
      revertIndex := Pred(index);
      return true;
    }
  }
}
