/** Balances: two tables, the second one holding only the node's own account on the chain. */
module Balances {
  import opened Basics

  type Table = map<Address, Amount>

  // An account with nothing on it is not stored.
  predicate NoZeros(m: Table) {
    forall a <- m :: m[a] != 0
  }

  function Put(m: Table, a: Address, amount: Amount): Table {
    if amount == 0 then m - {a} else m[a := amount]
  }

  lemma TablesAgree(m: Table, m': Table)
    requires NoZeros(m) && NoZeros(m')
    requires forall a :: Lookup(m, a) == Lookup(m', a)
    ensures m == m'
  {
    forall a ensures a in m <==> a in m' { assert Lookup(m, a) == Lookup(m', a); }
    forall a | a in m ensures m[a] == m'[a] { assert Lookup(m, a) == Lookup(m', a); }
  }

  datatype State = State(accounts: Table, own: Table)

  // On the chain layer the node's own account is mirrored.
  function SetBalance(s: State, node: Address, a: Address, amount: Amount, chain: bool): State {
    State(Put(s.accounts, a, amount), if chain && a == node then Put(s.own, a, amount) else s.own)
  }

  function Increase(s: State, node: Address, a: Address, amount: Amount, chain: bool): State {
    if amount == 0 then s else SetBalance(s, node, a, Lookup(s.accounts, a) + amount, chain)
  }

  // None where the code throws for want of balance.
  function Decrease(s: State, node: Address, a: Address, amount: Amount, chain: bool): Option<State> {
    if amount == 0 then Some(s)
    else if Lookup(s.accounts, a) < amount then None
    else Some(SetBalance(s, node, a, Lookup(s.accounts, a) - amount, chain))
  }

  // Moving coins the way the code does: first give, then take.
  function Move(s: State, node: Address, from: Address, to: Address, amount: Amount, chain: bool): Option<State> {
    Decrease(Increase(s, node, to, amount, chain), node, from, amount, chain)
  }

  // Moving back the way a fee is reverted: first take, then give.
  function MoveBack(s: State, node: Address, from: Address, to: Address, amount: Amount, chain: bool): Option<State> {
    var taken := Decrease(s, node, to, amount, chain);
    if taken.None? then None else Some(Increase(taken.value, node, from, amount, chain))
  }

  predicate OkState(s: State, node: Address) {
    NoZeros(s.accounts) && NoZeros(s.own) && s.own.Keys <= {node}
  }

  predicate Synced(s: State, node: Address) {
    Lookup(s.own, node) == Lookup(s.accounts, node)
  }

  // Two states that agree on all accounts agree on the mirror when both are in sync.
  lemma StatesAgree(s: State, s': State, node: Address)
    requires OkState(s, node) && OkState(s', node)
    requires forall a :: Lookup(s.accounts, a) == Lookup(s'.accounts, a)
    requires s.own == s'.own || (Synced(s, node) && Synced(s', node))
    ensures s == s'
  {
    TablesAgree(s.accounts, s'.accounts);
    assert Lookup(s.accounts, node) == Lookup(s'.accounts, node);
    forall a ensures a in s.own <==> a in s'.own {}
    forall a | a in s.own ensures s.own[a] == s'.own[a] {}
    assert s.own == s'.own;
  }

  lemma SetBalanceKeeps(s: State, node: Address, a: Address, amount: Amount, chain: bool)
    requires OkState(s, node) && (chain ==> Synced(s, node))
    ensures var s' := SetBalance(s, node, a, amount, chain);
            && OkState(s', node) && (chain ==> Synced(s', node)) && (!chain ==> s'.own == s.own)
            && forall x :: Lookup(s'.accounts, x) == if x == a then amount else Lookup(s.accounts, x)
  {}

  lemma IncreaseKeeps(s: State, node: Address, a: Address, amount: Amount, chain: bool)
    requires OkState(s, node) && (chain ==> Synced(s, node))
    ensures var s' := Increase(s, node, a, amount, chain);
            && OkState(s', node) && (chain ==> Synced(s', node)) && (!chain ==> s'.own == s.own)
            && forall x :: Lookup(s'.accounts, x) == Lookup(s.accounts, x) + if x == a then amount else 0
  {
    SetBalanceKeeps(s, node, a, Lookup(s.accounts, a) + amount, chain);
  }

  lemma DecreaseKeeps(s: State, node: Address, a: Address, amount: Amount, chain: bool)
    requires OkState(s, node) && (chain ==> Synced(s, node))
    ensures Decrease(s, node, a, amount, chain).Some? <==> amount <= Lookup(s.accounts, a)
    ensures Decrease(s, node, a, amount, chain).Some? ==>
              var s' := Decrease(s, node, a, amount, chain).value;
              && OkState(s', node) && (chain ==> Synced(s', node)) && (!chain ==> s'.own == s.own)
              && forall x :: Lookup(s'.accounts, x) == Lookup(s.accounts, x) - if x == a then amount else 0
  {
    if amount <= Lookup(s.accounts, a) {
      SetBalanceKeeps(s, node, a, Lookup(s.accounts, a) - amount, chain);
    }
  }

  // Increasing and decreasing undo each other, mirror included.
  lemma DecreaseUndoesIncrease(s: State, node: Address, a: Address, amount: Amount, chain: bool)
    requires OkState(s, node) && (chain ==> Synced(s, node))
    ensures Decrease(Increase(s, node, a, amount, chain), node, a, amount, chain) == Some(s)
  {
    IncreaseKeeps(s, node, a, amount, chain);
    var s1 := Increase(s, node, a, amount, chain);
    DecreaseKeeps(s1, node, a, amount, chain);
    StatesAgree(Decrease(s1, node, a, amount, chain).value, s, node);
  }

  lemma IncreaseUndoesDecrease(s: State, node: Address, a: Address, amount: Amount, chain: bool)
    requires OkState(s, node) && (chain ==> Synced(s, node)) && amount <= Lookup(s.accounts, a)
    ensures Decrease(s, node, a, amount, chain).Some?
    ensures Increase(Decrease(s, node, a, amount, chain).value, node, a, amount, chain) == s
  {
    DecreaseKeeps(s, node, a, amount, chain);
    var s1 := Decrease(s, node, a, amount, chain).value;
    IncreaseKeeps(s1, node, a, amount, chain);
    StatesAgree(Increase(s1, node, a, amount, chain), s, node);
  }

  lemma MoveKeeps(s: State, node: Address, from: Address, to: Address, amount: Amount, chain: bool)
    requires OkState(s, node) && (chain ==> Synced(s, node)) && amount <= Lookup(s.accounts, from)
    ensures Move(s, node, from, to, amount, chain).Some?
    ensures var s' := Move(s, node, from, to, amount, chain).value;
            && OkState(s', node) && (chain ==> Synced(s', node)) && (!chain ==> s'.own == s.own)
            && forall x :: Lookup(s'.accounts, x) ==
                 Lookup(s.accounts, x) + (if x == to then amount else 0) - (if x == from then amount else 0)
  {
    IncreaseKeeps(s, node, to, amount, chain);
    DecreaseKeeps(Increase(s, node, to, amount, chain), node, from, amount, chain);
  }

  // A transfer is reverted by the opposite transfer, a fee by taking before giving.
  lemma MoveIsUndone(s: State, node: Address, from: Address, to: Address, amount: Amount, chain: bool)
    requires OkState(s, node) && (chain ==> Synced(s, node)) && amount <= Lookup(s.accounts, from)
    ensures Move(s, node, from, to, amount, chain).Some?
    ensures Move(Move(s, node, from, to, amount, chain).value, node, to, from, amount, chain) == Some(s)
    ensures MoveBack(Move(s, node, from, to, amount, chain).value, node, from, to, amount, chain) == Some(s)
  {
    MoveKeeps(s, node, from, to, amount, chain);
    var s1 := Move(s, node, from, to, amount, chain).value;
    MoveKeeps(s1, node, to, from, amount, chain);
    StatesAgree(Move(s1, node, to, from, amount, chain).value, s, node);
    DecreaseKeeps(s1, node, to, amount, chain);
    var s2 := Decrease(s1, node, to, amount, chain).value;
    IncreaseKeeps(s2, node, from, amount, chain);
    StatesAgree(Increase(s2, node, from, amount, chain), s, node);
  }
}
