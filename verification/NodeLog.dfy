/**
 What a node writes into its action log: a block on top of blocks, transactions of the pool on
 top of everything, and the reverse of whatever is on top.  Such a log is one that clients can
 follow and index.
 */
module NodeLog {
  import opened Basics
  import opened ActionLogs
  import opened GetActions
  import opened Commander
  import opened Following

  // The actions in force are those of `stack`; at every position of the log the first of them
  // is a block, and none of the pool lies below a block.
  ghost predicate Tells(log: seq<Entry>, stack: seq<Action>) {
    && OkLog(log) && InForce(log, |log|) == stack && Rooted(log)
    && forall n :: 0 <= n <= |log| ==> BlocksFirst(InForce(log, n))
  }

  // A block is logged on top of blocks, a transaction on top of a block at least.
  ghost predicate MayFollow(stack: seq<Action>, a: Action) {
    if a.Block? then forall i :: 0 <= i < |stack| ==> stack[i].Block? else stack != []
  }

  lemma BeforeLast(log: seq<Entry>, e: Entry, n: nat)
    requires n <= |log|
    ensures InForce(log + [e], n) == InForce(log, n)
  {
    assert (log + [e])[..n] == log[..n];
    StackAscends(log[..n]);
  }

  lemma TellsOneMore(log: seq<Entry>, e: Entry, stack: seq<Action>, stack': seq<Action>)
    requires Tells(log, stack) && OkLog(log + [e]) && InForce(log + [e], |log| + 1) == stack'
    requires BlocksFirst(stack') && (stack' != [] ==> stack'[0].Block?)
    ensures Tells(log + [e], stack')
  {
    var log' := log + [e];
    forall n | 0 <= n <= |log'| ensures BlocksFirst(InForce(log', n)) && (InForce(log', n) != [] ==> InForce(log', n)[0].Block?) {
      if n <= |log| { BeforeLast(log, e, n); }
    }
  }

  lemma AppliedTells(log: seq<Entry>, stack: seq<Action>, a: Action)
    requires Tells(log, stack) && MayFollow(stack, a)
    ensures Tells(log + [Entry(Apply, |log|, a)], stack + [a])
  {
    var e := Entry(Apply, |log|, a);
    OkAppended(log, e);
    assert (log + [e])[|log|] == e;
    InForceTop(log + [e], |log|);
    BeforeLast(log, e, |log|);
    TellsOneMore(log, e, stack, stack + [a]);
  }

  lemma StackOf(log: seq<Entry>)
    ensures |InForce(log, |log|)| == |Stack(log)|
  {
    assert log[..|log|] == log;
    StackAscends(log);
  }

  lemma RevertedTells(log: seq<Entry>, stack: seq<Action>)
    requires Tells(log, stack) && stack != []
    ensures Stack(log) != [] && Tells(log + [Reverting(log)], stack[..|stack| - 1])
  {
    StackOf(log);
    var e := Reverting(log);
    RevertPops(log);
    TopFacts(log);
    assert (log + [e])[|log|] == e;
    InForceTop(log + [e], |log|);
    BeforeLast(log, e, |log|);
    TellsOneMore(log, e, stack, stack[..|stack| - 1]);
  }

  // ----- The log as an object -----

  // Nothing is promised of a log that is switched off.
  ghost predicate LogTells(log: ActionLog, stack: seq<Action>)
    reads log
  {
    log.Valid() && (log.enabled ==> Tells(log.actions, stack))
  }

  method Push(log: ActionLog, a: Action, ghost stack: seq<Action>)
    requires LogTells(log, stack) && MayFollow(stack, a) && |log.actions| + 1 < WORD
    modifies log
    ensures LogTells(log, stack + [a]) && |log.actions| <= |old(log.actions)| + 1
  {
    if log.enabled { AppliedTells(log.actions, stack, a); }
    log.LogAction(a);
  }

  // The last `count` actions are reverted, one by one.
  method Pop(log: ActionLog, count: nat, ghost stack: seq<Action>) returns (ok: bool)
    requires LogTells(log, stack) && count <= |stack| && |log.actions| + count < WORD
    modifies log
    ensures ok && LogTells(log, stack[..|stack| - count]) && |log.actions| <= |old(log.actions)| + count
  {
    assert stack[..|stack|] == stack;
    for n := 0 to count
      invariant LogTells(log, stack[..|stack| - n]) && |log.actions| <= |old(log.actions)| + n
    {
      ghost var now := stack[..|stack| - n];
      if log.enabled { RevertedTells(log.actions, now); StackOf(log.actions); }
      ok := log.Revert();
      assert now[..|now| - 1] == stack[..|stack| - (n + 1)];
    }
    ok := true;
  }
}
