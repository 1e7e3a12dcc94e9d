/** The client's loop: ask the node for actions, replay them, ask again while answers are full. */
module Following {
  import opened Basics
  import opened ActionLogs
  import opened GetActions
  import opened Commander

  // One entry of an answer; `ok` is false where the client throws.
  method Process(client: Client, e: Entry, ghost stack: seq<Action>) returns (ok: bool)
    requires client.Image(stack) && |stack| + 1 < WORD && Replay(stack, [e]).Some?
    requires client.start == 0 ==> e.kind.Apply? && e.action.Block?
    modifies client
    ensures client.start == e.index + 1
    ensures e.kind.Revert? ==> ok
    ensures e.kind.Apply? ==> (ok <==> Payable(client.accounts, stack + [e.action]))
    ensures ok ==> client.Image(Replay(stack, [e]).value)
  {
    BlockCountBound(stack);
    assert [e][..0] == [];
    var first := client.start == 0;
    client.start := e.index + 1;
    if e.kind.Apply? {
      match e.action
      case Block(b) => ok := client.ApplyBlock(b, first, stack);
      case Transaction(tx) => ok := client.ApplyPool(tx, stack);
    } else {
      ghost var below := Replay(stack, [e]).value;
      assert stack == below + [e.action];
      match e.action
      case Block(b) => ok := client.RevertBlock(b, below);
      case Transaction(tx) => ok := client.RevertPool(tx, below);
    }
  }

  lemma {:induction false} BlockCountBound(stack: seq<Action>)
    ensures BlockCount(stack) <= |stack|
  {
    if stack == [] {
    } else {
      BlockCountBound(stack[..|stack| - 1]);
    }
  }

  // ----- A whole answer -----

  lemma ReplayPrefix(had: seq<Action>, entries: seq<Entry>, i: nat)
    requires i < |entries| && Replay(had, entries[..i]).Some?
    ensures Replay(had, entries[..i + 1]) == Replay(Replay(had, entries[..i]).value, [entries[i]])
  {
    assert entries[..i + 1][..i] == entries[..i];
    assert [entries[i]][..0] == [];
  }

  // On the way the stack only shrinks during the reverts, and only grows afterwards.
  lemma {:induction false} ReplayOnTheWay(had: seq<Action>, entries: seq<Entry>, k: nat, i: nat, final: seq<Action>)
    requires NormalForm(entries, k) && Replay(had, entries) == Some(final) && i <= |entries|
    ensures Replay(had, entries[..i]).Some?
    ensures i >= k ==> Replay(had, entries[..i]).value <= final
    decreases |entries| - i
  {
    if i < |entries| {
      ReplayOnTheWay(had, entries, k, i + 1, final);
      assert entries[..i + 1][..i] == entries[..i];
    } else {
      assert entries[..i] == entries;
    }
  }

  lemma {:induction false} ReplayShrinks(had: seq<Action>, entries: seq<Entry>, k: nat, i: nat)
    requires NormalForm(entries, k) && i <= k && Replay(had, entries[..i]).Some?
    ensures |Replay(had, entries[..i]).value| + i == |had|
  {
    if i == 0 {
    } else {
      assert entries[..i][..i - 1] == entries[..i - 1];
      ReplayShrinks(had, entries, k, i - 1);
    }
  }

  lemma {:induction false} PayablePrefix(accounts: set<Address>, stack: seq<Action>, n: nat)
    requires n <= |stack| && Payable(accounts, stack)
    ensures Payable(accounts, stack[..n])
    decreases |stack|
  {
    if n < |stack| {
      assert stack[..|stack| - 1][..n] == stack[..n];
      PayablePrefix(accounts, stack[..|stack| - 1], n);
    } else {
      assert stack[..n] == stack;
    }
  }

  // What an entry of an answer meets.
  lemma EntryFits(had: seq<Action>, answer: seq<Entry>, k: nat, i: nat, final: seq<Action>)
    requires NormalForm(answer, k) && Replay(had, answer) == Some(final) && i < |answer|
    ensures Replay(had, answer[..i]).Some? && Replay(had, answer[..i + 1]).Some?
    ensures var now := Replay(had, answer[..i]).value;
            && (|now| <= |had| || now <= final) && Replay(now, [answer[i]]) == Replay(had, answer[..i + 1])
            && (answer[i].kind.Apply? ==> now + [answer[i].action] <= final)
            && (had == [] ==> answer[i].kind.Apply?)
  {
    ReplayOnTheWay(had, answer, k, i, final);
    ReplayOnTheWay(had, answer, k, i + 1, final);
    ReplayPrefix(had, answer, i);
    var now := Replay(had, answer[..i]).value;
    assert [answer[i]][..0] == [];
    assert Replay(now, []) == Some(now);
    if i <= k { ReplayShrinks(had, answer, k, i); }
    if i + 1 <= k { ReplayShrinks(had, answer, k, i + 1); }
  }

  // Where the loop over an answer stands.
  ghost predicate Reached(had: seq<Action>, answer: seq<Entry>, i: nat, now: seq<Action>, count: nat) {
    i <= |answer| && Replay(had, answer[..i]) == Some(now) && count == Size(answer[..i])
  }

  lemma ReachedMore(had: seq<Action>, answer: seq<Entry>, k: nat, final: seq<Action>, i: nat, now: seq<Action>, count: nat)
    requires NormalForm(answer, k) && Replay(had, answer) == Some(final) && i < |answer| && Reached(had, answer, i, now, count)
    ensures Replay(now, [answer[i]]).Some?
    ensures Reached(had, answer, i + 1, Replay(now, [answer[i]]).value, count + ActionSize(answer[i].action))
    ensures |now| <= |had| || |now| <= |final|
    ensures answer[i].kind.Apply? ==> i >= k && Replay(now, [answer[i]]).value == now + [answer[i].action] <= final
    ensures had == [] ==> answer[i].kind.Apply?
  {
    EntryFits(had, answer, k, i, final);
    assert answer[..i + 1][..i] == answer[..i];
    assert [answer[i]][..0] == [];
    assert Replay(now, []) == Some(now);
  }

  // What a failure at an entry says about the stack the answer leads to.
  lemma FailsForGood(accounts: set<Address>, final: seq<Action>, after: seq<Action>)
    requires after <= final && !Payable(accounts, after)
    ensures !Payable(accounts, final)
  {
    assert after == final[..|after|];
    if Payable(accounts, final) { PayablePrefix(accounts, final, |after|); }
  }

  // One entry of an answer at its place.
  method ProcessNth(client: Client, answer: seq<Entry>, i: nat, ghost had: seq<Action>, ghost k: nat, ghost final: seq<Action>,
                    ghost now: seq<Action>, ghost count: nat)
    returns (ok: bool, ghost after: seq<Action>)
    requires client.Image(now) && |had| + 1 < WORD && |final| + 1 < WORD && i < |answer| && Reached(had, answer, i, now, count)
    requires NormalForm(answer, k) && Replay(had, answer) == Some(final) && (i > k ==> Payable(client.accounts, now))
    requires client.start == 0 ==> had == [] && i == 0 && (final == [] || final[0].Block?)
    modifies client
    ensures client.start == answer[i].index + 1
    ensures ok ==> client.Image(after) && Reached(had, answer, i + 1, after, count + ActionSize(answer[i].action))
    ensures ok && i + 1 > k ==> Payable(client.accounts, after)
    ensures !ok ==> k < |answer| && !Payable(client.accounts, final)
  {
    ReachedMore(had, answer, k, final, i, now, count);
    after := Replay(now, [answer[i]]).value;
    ok := Process(client, answer[i], now);
    if !ok { FailsForGood(client.accounts, final, after); }
  }

  method ProcessAll(client: Client, answer: seq<Entry>, ghost had: seq<Action>, ghost k: nat, ghost final: seq<Action>)
    returns (ok: bool, count: nat)
    requires client.Image(had) && |had| + 1 < WORD && |final| + 1 < WORD
    requires NormalForm(answer, k) && Replay(had, answer) == Some(final)
    requires client.start == 0 ==> final == [] || final[0].Block?
    modifies client
    ensures ok <==> (Payable(client.accounts, final) || k == |answer|)
    ensures ok ==> client.Image(final) && count == Size(answer)
    ensures ok ==> client.start == if answer == [] then old(client.start) else answer[|answer| - 1].index + 1
  {
    count := 0;
    ghost var now := had;
    for i := 0 to |answer|
      invariant client.Image(now) && Reached(had, answer, i, now, count)
      invariant client.start == if i == 0 then old(client.start) else answer[i - 1].index + 1
      invariant i > k ==> Payable(client.accounts, now)
    {
      ok, now := ProcessNth(client, answer, i, had, k, final, now, count);
      if !ok { return; }
      count := count + 1;
      if answer[i].action.Block? {
        var b := answer[i].action.block;
        count := count + |b.rewards| + |b.transactions| + |b.impacts| + |b.applied|;
      }
    }
    assert answer[..|answer|] == answer;
    ok := true;
  }

  // ----- The loop -----

  // The first action in force is always a block.
  ghost predicate Rooted(log: seq<Entry>) {
    forall n :: 0 <= n <= |log| && InForce(log, n) != [] ==> InForce(log, n)[0].Block?
  }

  ghost predicate AllPayable(log: seq<Entry>, accounts: set<Address>) {
    forall n :: 0 <= n <= |log| ==> Payable(accounts, InForce(log, n))
  }

  lemma InForceBound(log: seq<Entry>, n: nat)
    requires n <= |log|
    ensures |InForce(log, n)| <= n
  {
    StackBound(log[..n]);
  }

  lemma {:induction false} StackBound(log: seq<Entry>)
    ensures |Stack(log)| <= |log|
  {
    if log == [] {
    } else {
      StackBound(log[..|log| - 1]);
    }
  }

  const MAX_COUNT: nat := 10000

  // ----- Which requests succeed -----

  // Where the window of an answer ends: at the first position at which it is full.
  ghost function EndFrom(log: seq<Entry>, start: nat, i: nat): (end: nat)
    requires start <= i <= |log|
    ensures i <= end <= |log|
    decreases |log| - i
  {
    if i == |log| || Size(Compressed(log, start, i).Entries()) >= MAX_COUNT then i else EndFrom(log, start, i + 1)
  }

  ghost function Asked(log: seq<Entry>, start: nat): Window
    requires start <= |log|
  {
    Compressed(log, start, EndFrom(log, start, start))
  }

  // The request can be answered, and what the answer leads to can be paid, or is only less.
  ghost predicate Passes(log: seq<Entry>, accounts: set<Address>, start: nat)
    requires start <= |log|
  {
    && !Stuck(log, start, MAX_COUNT)
    && (Asked(log, start).applies == [] || Payable(accounts, InForce(log, EndFrom(log, start, start))))
  }

  // Where the client asks again.
  ghost function NextStart(log: seq<Entry>, start: nat): (next: nat)
    requires OkLog(log) && start <= |log|
    ensures start <= next <= |log|
    ensures Asked(log, start).Entries() != [] ==> next > start
  {
    var entries := Asked(log, start).Entries();
    if entries == [] then start
    else
      RestartIsConsistent(log, start, EndFrom(log, start, start));
      entries[|entries| - 1].index + 1
  }

  // A full answer is not empty, so the client's position grows.
  lemma FullMoves(log: seq<Entry>, start: nat)
    requires OkLog(log) && start <= |log| && Size(Asked(log, start).Entries()) >= MAX_COUNT
    ensures NextStart(log, start) > start
  {}

  // Every request the client makes passes, until an answer is not full.
  ghost predicate Follows(log: seq<Entry>, accounts: set<Address>, start: nat)
    requires OkLog(log) && start <= |log|
    decreases |log| - start
  {
    && Passes(log, accounts, start)
    && (Size(Asked(log, start).Entries()) < MAX_COUNT
        || (FullMoves(log, start);
            Follows(log, accounts, NextStart(log, start))))
  }

  lemma {:induction false} EndIsUnique(log: seq<Entry>, start: nat, i: nat, end: nat)
    requires start <= i <= end <= |log| && NotFullBefore(log, start, end, MAX_COUNT)
    requires end < |log| ==> Size(Compressed(log, start, end).Entries()) >= MAX_COUNT
    ensures EndFrom(log, start, i) == end
    decreases end - i
  {
    if i == end {
    } else {
      EndIsUnique(log, start, i + 1, end);
    }
  }

  lemma SomeApplies(entries: seq<Entry>, k: nat)
    requires NormalForm(entries, k) && k < |entries|
    ensures exists i :: 0 <= i < |entries| && entries[i].kind.Apply?
  {
    assert entries[k].kind.Apply?;
  }

  lemma NormalFormOf(log: seq<Entry>, start: nat, end: nat, k: nat)
    requires OkLog(log) && start <= end <= |log| && NormalForm(Compressed(log, start, end).Entries(), k)
    ensures k == |Compressed(log, start, end).Entries()| <==> Compressed(log, start, end).applies == []
  {
    var w := Compressed(log, start, end);
    WindowShape(log, start, end);
    if w.applies != [] {
      LastIsApplied(w);
      assert w.applies[|w.applies| - 1].kind.Apply?;
    } else {
      assert w.Entries() == w.reverts;
      if k < |w.reverts| { SomeApplies(w.reverts, k); }
    }
  }

  lemma AnswerOf(log: seq<Entry>, start: nat, end: nat, answer: seq<Entry>)
    requires OkLog(log) && Answer(log, start, Limit(MAX_COUNT), end, answer)
    ensures end == EndFrom(log, start, start) && answer == Asked(log, start).Entries()
  {
    EndIsUnique(log, start, start, end);
  }

  // One request and the processing of its answer; it succeeds exactly if the request passes.
  method Step(log: ActionLog, client: Client) returns (ok: bool, count: nat)
    requires log.Valid() && Rooted(log.actions) && |log.actions| + 1 < WORD
    requires client.start <= |log.actions| && client.Image(InForce(log.actions, client.start))
    modifies client
    ensures ok <==> Passes(log.actions, client.accounts, old(client.start))
    ensures ok ==>
      && count == Size(Asked(log.actions, old(client.start)).Entries()) && client.start == NextStart(log.actions, old(client.start))
      && client.Image(InForce(log.actions, client.start))
      && (count < MAX_COUNT ==> InForce(log.actions, client.start) == InForce(log.actions, |log.actions|))
  {
    ghost var actions := log.actions;
    ghost var start := client.start;
    count := 0;
    var answer;
    ghost var end;
    ok, answer, end := Answering(log, client.start, MAX_COUNT);
    if !ok { return; }
    AnswerIsNormal(actions, start, MAX_COUNT, end, answer);
    AnswerReplays(actions, start, MAX_COUNT, end, answer);
    AnswerOf(actions, start, end, answer);
    InForceBound(actions, start);
    InForceBound(actions, end);
    ghost var k :| NormalForm(answer, k);
    NormalFormOf(actions, start, end, k);
    ok, count := ProcessAll(client, answer, InForce(actions, start), k, InForce(actions, end));
  }

  // On a log that does not grow the loop ends, and brings the client to what the whole log
  // says is in force, exactly if all the requests it makes on the way pass.
  method Sync(log: ActionLog, client: Client) returns (ok: bool)
    requires log.Valid() && Rooted(log.actions) && |log.actions| + 1 < WORD
    requires client.start <= |log.actions| && client.Image(InForce(log.actions, client.start))
    modifies client
    ensures ok <==> Follows(log.actions, client.accounts, old(client.start))
    ensures ok ==>
      && client.start <= |log.actions| && client.Image(InForce(log.actions, |log.actions|))
      && InForce(log.actions, client.start) == InForce(log.actions, |log.actions|)
  {
    ghost var first := client.start;
    var done := false;
    while !done
      invariant client.start <= |log.actions| && client.Image(InForce(log.actions, client.start))
      invariant done ==> InForce(log.actions, client.start) == InForce(log.actions, |log.actions|)
      invariant Follows(log.actions, client.accounts, first) <==> done || Follows(log.actions, client.accounts, client.start)
      decreases |log.actions| - client.start, !done
    {
      var count;
      ghost var s := client.start;
      ok, count := Step(log, client);
      if !ok { return; }
      if count >= MAX_COUNT { FullMoves(log.actions, s); }
      done := count < MAX_COUNT;
    }
    ok := true;
  }

  // ----- When all of them do -----

  // A log that ends in an applied entry, all of whose stacks can be paid, can be followed from
  // everywhere.
  lemma {:induction false} PayableLogsFollow(log: seq<Entry>, accounts: set<Address>, start: nat)
    requires OkLog(log) && start <= |log| && AllPayable(log, accounts)
    requires log != [] && log[|log| - 1].kind.Apply?
    ensures Follows(log, accounts, start)
    decreases |log| - start
  {
    NeverStuck(log, start);
    if NextStart(log, start) > start { PayableLogsFollow(log, accounts, NextStart(log, start)); }
  }

  lemma NeverStuck(log: seq<Entry>, start: nat)
    requires log != [] && log[|log| - 1].kind.Apply?
    ensures !Stuck(log, start, MAX_COUNT)
  {}

  // And one whose end cannot be paid is followed by nobody who has something of it to apply.
  lemma UnpayableEnds(log: seq<Entry>, accounts: set<Address>, start: nat)
    requires OkLog(log) && start <= |log| && !Payable(accounts, InForce(log, |log|))
    requires Size(Asked(log, start).Entries()) < MAX_COUNT && Asked(log, start).applies != []
    ensures !Follows(log, accounts, start)
  {
    LastWindow(log, start, start);
  }

  lemma {:induction false} LastWindow(log: seq<Entry>, start: nat, i: nat)
    requires start <= i <= |log| && Size(Compressed(log, start, EndFrom(log, start, i)).Entries()) < MAX_COUNT
    ensures EndFrom(log, start, i) == |log|
    decreases |log| - i
  {
    if i == |log| || Size(Compressed(log, start, i).Entries()) >= MAX_COUNT {
    } else {
      LastWindow(log, start, i + 1);
    }
  }
}
