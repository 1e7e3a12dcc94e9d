/**
 Node and client on the pool: the node only asks whether the fee is there, the client takes
 it.  Two transactions the node accepts are then too many for the client.
 */
module PoolFees {
  import opened Basics
  import T = Transactions
  import V = DocumentValues
  import Balances
  import SponsorIndex
  import Statistics
  import L = ActionLogs
  import Commander

  // A storage owns 10 and announces, then withdraws a file, for a fee of 10 each.
  const WORLD := T.World(V.Chain(0, 2), "node", Statistics.Records(map["f" := ["author"]], map[]), {"a"}, map[], SponsorIndex.Insertion())
  const STORE := T.Tx(T.UpdateStorage("a", "f", true), "a", 10, "t1")
  const REMOVE := T.Tx(T.UpdateStorage("a", "f", false), "a", 10, "t2")
  const BEFORE := T.Ledger(Balances.State(map["a" := 10], map[]), V.Docs(map[], map[], map[], map[]), map[])
  const STORED := BEFORE.(docs := V.Docs(map[], map[], map[], map["f" := {"a"}]))

  lemma BeforeIsOk()
    ensures T.Inv(WORLD, BEFORE) && T.Ready(WORLD, BEFORE, false)
  {}

  lemma StoredIsOk()
    ensures T.Inv(WORLD, STORED) && T.Ready(WORLD, STORED, false)
  {
    assert V.OkHolders(STORED.docs);
  }

  lemma StoreApplies()
    ensures T.Inv(WORLD, BEFORE) && T.Ready(WORLD, BEFORE, false)
    ensures T.ApplyTransaction(WORLD, BEFORE, STORE, "") == T.Applied(STORED)
  {
    BeforeIsOk();
    var none: set<Address> := {};
    assert none + {"a"} == {"a"};
  }

  lemma RemoveApplies()
    ensures T.Inv(WORLD, STORED) && T.Ready(WORLD, STORED, false)
    ensures T.ApplyTransaction(WORLD, STORED, REMOVE, "") == T.Applied(BEFORE)
  {
    StoredIsOk();
    var one: set<Address> := {"a"};
    assert one - {"a"} == {};
    assert STORED.docs.holders - {"f"} == map[];
  }

  // What the node logs for the two, after a block that paid the account its 10.
  const PAID := L.Block(L.BlockLog("b", 1, 600, "miner", [], [L.RewardLog("a", 10, 0)], [], []))
  const FIRST := L.Transaction(L.TransactionLog("t1", 0, L.Owned("a"), 10))
  const SECOND := L.Transaction(L.TransactionLog("t2", 0, L.Owned("a"), 10))

  lemma Earned()
    ensures Commander.Payable({"a"}, [PAID]) && Commander.Worth([PAID])("a") == 10
  {
    var none: seq<L.Action> := [];
    var b := PAID.block;
    assert none + [L.Block(b)] == [PAID];
    Commander.BlockOnTop(none, b);
    Commander.BlockPayable({"a"}, none, b);
    Commander.RewardEntriesMore(0, b.rewards, 0, "a");
    assert b.rewards[..1] == b.rewards && b.rewards[..0] == [];
    assert Commander.PlusRewards(Commander.Plus(Commander.Worth(none), [], "miner"), b.rewards)("a") == 10;
  }

  // The client carries out the first and throws at the second.
  lemma SecondFeeExample()
    ensures T.Inv(WORLD, BEFORE) && T.Inv(WORLD, STORED)
    ensures T.ApplyTransaction(WORLD, BEFORE, STORE, "") == T.Applied(STORED)
    ensures T.ApplyTransaction(WORLD, STORED, REMOVE, "") == T.Applied(BEFORE)
    ensures Commander.Payable({"a"}, [PAID, FIRST]) && !Commander.Payable({"a"}, [PAID, FIRST, SECOND])
  {
    StoreApplies();
    RemoveApplies();
    Earned();
    Commander.TransactionPayable({"a"}, [PAID], FIRST.tx);
    Commander.TransactionOnTop([PAID], FIRST.tx);
    Commander.TransactionPayable({"a"}, [PAID, FIRST], SECOND.tx);
    assert [PAID] + [FIRST] == [PAID, FIRST];
    assert [PAID, FIRST] + [SECOND] == [PAID, FIRST, SECOND];
    assert Commander.Worth([PAID, FIRST])("a") == 0;
    assert "a" in {"a"};
  }

  // An update of authorizations the node logs: no client carries it out, whatever it follows.
  lemma UpdateIsUnknown(accounts: set<Address>, stack: seq<L.Action>, tx: L.TransactionLog)
    requires tx.action.AuthorizationUpdate?
    ensures !Commander.Payable(accounts, stack + [L.Transaction(tx)])
  {
    Commander.TransactionPayable(accounts, stack, tx);
  }
}
