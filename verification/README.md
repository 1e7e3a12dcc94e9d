# A verified model of publiq.pp

publiq.pp is a blockchain node whose state runs forwards and backwards: every transaction,
reward, sponsorship slice and log entry has an apply and a revert, and switching to another
fork relies on the two cancelling exactly.  This project models the parts that carry this
promise, and the parts that have to agree with each other across nodes, and proves what they
keep over every run.  `dafny verify dfyconfig.toml` checks all of it.

| file | models |
|---|---|
| `Basics`, `Collecting`, `Totals`, `Ordering` | shared types, maps filled in any order, totals of tables, sorted keys |
| `Sponsorship`, `Books`, `SponsorIndex` | the book of one sponsored unit: slices, steps, whole runs, the incrementally sorted index |
| `Documents`, `DocumentStore` | all books with expirations and holders: as values, and as the object the code changes in place |
| `Ledger`, `Authority`, `Transactions`, `Node` | balances, authorizations, the five kinds of actions with fees, apply and revert over sequences |
| `Payers` | who has to have signed a transaction, who pays it, and when exactly it is applied |
| `Services`, `Statistics`, `Rewards`, `BlockRewards` | from the service reports that count to shares that are exactly a whole, and to rewards that are exactly the total |
| `Holders`, `RewardParts`, `Supply` | who holds these shares, which part of a block's reward goes to whom, and what the blocks of a year emit |
| `BlockDocs`, `Blocks`, `BlockNode` | a whole block there and back, on values and on the node's stores |
| `Runs`, `Forks`, `ForkNode`, `Disorder`, `Sorts`, `EarlyUse` | any number of blocks accepted and reverted, the switch to another chain, and exactly which blocks can be undone, under a given library sort and under all of them |
| `Conservation`, `Settlement`, `Claims`, `Returns`, `SecondReturn` | where the coins are over any chain of blocks, what one sponsorship is paid from when it is made to when it expires, and to whom cancellations are returned |
| `ActionLog`, `GetActions`, `Journals`, `Commander`, `Following`, `History`, `PoolFees` | the action log as a stack, its compressed answers, and the client that mirrors it, indexes it and lists histories |
| `NodeLog`, `Reoffering`, `FullNode` | the node as a whole: blocks, pool, stores and log through pool transactions and switches to other chains, the transactions offered to the pool again, and its clients |
| `Mirrors`, `Statement` | node and client side by side: the same changes of balance, the same balances, and histories that add up to them |
| `Consensus`, `Chain`, `HeaderSync`, `HeaderRuns` | the difficulty constant from differently cut windows, the chunked download of headers, and what a downloaded run stands for |
| `Clustering`, `ServiceCounter`, `Coins` | clusters of transactions before mining, at-most-once counting, arithmetic on pairs of words |

Where the code changes objects in loops, the model is a class or a method with loops, proved
against a specification function whose own properties are the theorems; modules such as
`Books`, `BlockDocs`, `Transactions`, `Forks`, `Conservation` and `Claims` hold those theorems.

## Findings

Where a property one would expect does not hold of the code, the exact condition is proved.

- A use that is not later than the last recorded time point pays nothing and loses the seconds
  it passes over.  This is possible only while the start of the first sponsor, which may lie in
  the future (documents.cpp:359), is the only point: `Books.EarlyUseLoses` gives the exact
  loss, `Books.EarlyUseLosesExample` a concrete book.  Undoing such a use scans without asking
  whether time had moved on, and what it reports depends on the order `std::sort` leaves ties in.
  For every sort, a block or chain of blocks can be reverted if and only if that scan reports
  nothing for such uses: `Disorder.RevertBlockExactly`, `Disorder.RevertChainExactly`.  With a
  sort that leaves the first sponsor first - any stable one, `SponsorIndex.StableKeepsFirst` - that
  is always so; with every sort it is so if and only if there was nothing due:
  `Sorts.RevertBlockAnySort`, `Sorts.RevertChainAnySort`.  `EarlyUse.EarlyUseExample` has a block
  that is accepted, loses 1200, and can be undone with one sort and not with another.
- A sponsorship that expires while the first sponsor's start is still ahead is not given back by
  its expiry block; what is left of it waits for a use: `Settlement.ExpiryBlockSettles` says when
  expiry leaves nothing and when everything, `Settlement.ExpiryLeavesExample` shows a book;
  `Claims.SponsorshipIsSettled` is the account of a sponsorship over its whole life.
- The trial run of a cancellation (what `action_can_apply` asks) succeeds for a wrong account and
  for an item already cancelled, where the real run throws: `DocumentValues.TrialVersusReal`,
  `Transactions.CanApplyMeansApplies`, `Transactions.RefusedLeavesNoTrace`, with
  `DocumentValues.TrialVersusRealExample`.
- A second cancellation that finds nothing left to withdraw is accepted from anyone, since the
  sponsor's name is only compared where something is found, and the block returns the entry's
  amount once more to the account it names: `Conservation.BlockConserves` and
  `Conservation.ChainConserves` show that coins are conserved, `Returns.ReturnsGoToSponsors` that
  returns go to the sponsors, if and only if every cancellation took effect;
  `SecondReturn.SecondReturnExample` has a block that creates coins.
- `get_actions` reads behind the end of the log exactly if only reverts are left and they do not
  fill the answer (communication_rpc.cpp:46-51): `GetActions.Answering`, `GetActions.StuckExample`.  A log ending in an
  applied entry never runs into this: `Following.PayableLogsFollow`.
- `action_log::clear` leaves the cached index as it is, which does no harm: `ActionLogs.ActionLog.Clear`.
- The client throws at an authorization update in the log, which it does not know, and at a pool
  transaction whose fee the payer no longer has - the node does not charge fees in the pool, the
  client does: `Commander.Client.ApplyBlock`, `Commander.Client.ApplyPool`, with
  `PoolFees.SecondFeeExample` and `PoolFees.UpdateIsUnknown`.  In blocks the two always agree, and in
  the pool up to the fees: `Mirrors.NodeAgrees`.  `Following.Sync` says exactly when
  a client gets through.
- The coin operators `*=`, `/=` and `%=` are exact if and only if one intermediate product fits a
  64-bit word: `Coins.Coin.Multiply`, `Coins.Coin.Divide`, `Coins.Coin.Remainder`,
  `Coins.DivisionExample`.

## How the model reads the code

- Amounts are natural numbers of 10^-8 coins; `Coins` says when the code's pairs of words agree
  with that.  Times are integer seconds; headers are 600 s apart, as `check_headers` demands.
- A throw is `None`, `Threw` or `ok == false`, and the state after it is left open: the callers
  discard it.  An assertion followed by the same test and throw counts once.
- Stored maps and vectors are maps and sequences; reading outside them fails.  A `multimap` is a
  sequence in the order of insertion, since its order is not observable.
- The two-level map of payments, by sponsor and hash, is one map by hash with the sponsor inside;
  hashes are unique.  The single scan loop of the documents store is one method per mode.
  Triple loops over reports run over the flattened list of counted items.
- The hash of a block is kept with the block; where two chains are compared, equal hashes are
  assumed to mean equal blocks (`HeaderSync.NoCollision`).
- The sort of the library is a parameter, some function that returns a sorted permutation
  (`SponsorIndex.Sort`): a node always uses the same one, and results hold for each of them.
- `stat_mismatch` compares with 1.2 exactly, as 6/5.
- A transfer has different accounts and a positive amount, a sponsorship a positive number of
  hours, a cancellation a hash and an account, as `action_validate` demands
  (transaction_transfer.cpp:23-42, transaction_sponsoring.cpp:31-51 and 141-161).
- The registered files, units and storages and the roles of servers are the same for all blocks
  of a chain.  Actions that register them are not modelled, so files and units stand for
  everything ever registered: what a smaller registry accepts, this one accepts with the same
  result.
- The hashes of transactions handed to the node differ from one another and from those of earlier
  sponsorships (`Transactions.AllNew`); the transaction cache sees to that (sessions.cpp:953-954).
- Of a pool transaction only whether it was complete, that is applied, matters to its undoing.
- What the log keeps of a block or a transaction - hashes, sizes, times - is given by two functions
  of the whole node; `Mirrors` asks of them that they keep miner, actions, fees and rewards, as
  action_log.cpp:74-157 does (`Mirrors.LogsFaithfully`).

## Model

| member | source | states |
|---|---|---|
| `FullNodes.FullNode.SwitchChain` | src/libblockchain/sessions.cpp:827-1030 | leaving the own chain with all parts of the node: pool and own blocks above the common one are reverted in log and stores, the received blocks accepted and logged, and the transactions that lost their place offered to the pool again: the usable ones of the abandoned blocks as complete, then those of a pool that is not cleared, each once and in order, none near the end of the chain; it gets through exactly if the own blocks were orderly - always with a sort that leaves the first sponsor of a unit first -, a node that never had them would accept the others, and no returning transaction throws; the node keeps its invariant and ends as that node with what was offered in its pool or refused at its turn |
| `FullNodes.FullNode.constructor` | src/libblockchain/node_internals.hpp:627-646 | the genesis block pays its rewards and is logged, and the invariant of the whole node holds |
| `FullNodes.FullNode.Enqueue` | src/libblockchain/sessions.cpp:999-1030 | a transaction offered to the pool is applied and logged, or waits incomplete, or is refused without a trace; fails exactly where applying throws |
| `FullNodes.FullNode.Requeue` | src/libblockchain/sessions.cpp:999-1030 | the loop over the transactions that lost their place does this with each usable one in order |
| `FullNodes.Serve` | src/commander/daemon_rpc.cpp:1247-1535 | a client that follows the log of such a node gets through exactly if its requests pass, and then holds what the blocks and the pool of the node say; no block of it lies above a pool transaction |
| `Mirrors.Serve` | src/commander/daemon_rpc.cpp:1247-1535 | a client of a node that logs what it does gets through exactly if its requests pass; then it holds, for every account it follows, the balance the account has on the node, less the fees of the account's transactions in the pool |
| `Mirrors.FullStatement` | src/commander/rpc.cpp:233-384 | the history such a client lists of an account over all blocks adds up to the balance the account has on the node's chain |
| `Mirrors.NodeAgrees` | src/commander/daemon_rpc.cpp:535-570 | what blocks and pool of a node say can be carried out by a client exactly if it has no authorization update and the payers in the pool have amounts, fees and earlier fees at their turn; and then it gives every account its balance on the node, but for these fees |
| `Mirrors.ChainAgrees` | src/commander/daemon_rpc.cpp:1304-1382 | the same for any chain of accepted blocks, which a client takes exactly if it has no authorization update |
| `Mirrors.PoolAgrees` | src/commander/daemon_rpc.cpp:1383-1411 | the same for any sequence of transactions applied in the pool |
| `Mirrors.BlockAgrees` | src/commander/daemon_rpc.cpp:1304-1382 | a client that has the node's balances takes an accepted block exactly if it has no authorization update, and has the node's balances again |
| `Mirrors.ChangesAgree` | src/commander/utility.cpp:5-100 | for a transaction the node applies in a block, a client that reads its action and fee in the log changes every balance by exactly what the node changed it by, and can afford it |
| `Mirrors.EntriesAgree` | src/commander/daemon_rpc.cpp:610-642 | whose balance the node changes gets an entry in his journal, and nobody else but a miner who is not paid or pays only himself, or who is named with nothing to pay |
| `Mirrors.GenesisAgrees` | src/libblockchain/node_internals.hpp:627-646 | after the genesis block node and client agree |
| `Reoffering.BackIsCollected` | src/libblockchain/sessions.cpp:832-848 | what is offered to the pool after a switch: exactly the usable transactions of the abandoned blocks, as complete ones, and then, unless the pool is to be cleared, those of the pool, asked again; each once, in the order of their places; nothing near the end of the chain |
| `Reoffering.AllSettled` | src/libblockchain/sessions.cpp:990-1030 | each of them is in the new pool or could not be applied at its turn, and the pool has nothing else |
| `NodeLog.AppliedTells` | src/libblockchain/action_log.cpp:159-168 | logging a block on top of blocks, or a pool transaction on top of a block at least, keeps the log one that clients can follow and index: at every position its first action in force is a block, and none of the pool lies below a block |
| `NodeLog.RevertedTells` | src/libblockchain/action_log.cpp:170-209 | and so does reverting whatever is on top |
| `ForkNode.SwitchChain` | src/libblockchain/sessions.cpp:849-982 | the stores part of it: pool and own blocks reverted, received blocks accepted, exactly if the own blocks were orderly and a node that never had them would accept the others; the node ends in the very state of such a node |
| `Forks.RevertChainUndoes` | src/libblockchain/sessions.cpp:854-908 | reverting accepted blocks from the last to the first gives back the ledger and the chain they were built on, if they are orderly, or - whatever they are - if the sort of the library leaves the first sponsor of a unit first |
| `Sorts.RevertChainAnySort` | src/libblockchain/sessions.cpp:854-908 | a chain of accepted blocks is undone with every library sort if and only if in every block every viewed unit was used after its last time point or had nothing due; with a sort that leaves the first sponsor of a unit first, every chain is undone |
| `Sorts.RevertBlockAnySort` | src/libblockchain/sessions.cpp:859-891 | the same for one block |
| `EarlyUse.EarlyUseExample` | src/libblockchain/documents.cpp:516-544 | a ledger in order and a block using a unit before its first time point: accepted with every sort, it loses 1200; it is undone with a sort that leaves the first sponsor first and cannot be undone with one that lists what started before the block first |
| `EarlyUse.DocsArise` | src/libblockchain/documents.cpp:312-401 | the documents of that example are those after two sponsorings in the block before |
| `Forks.KeptFirstChain` | src/libblockchain/documents.cpp:527-554 | with a sort that leaves the first sponsor of a unit first every chain of accepted blocks is orderly |
| `Disorder.RevertChainExactly` | src/libblockchain/sessions.cpp:854-908 | for whatever sort the library has, a chain of accepted blocks is undone if and only if it is orderly under that sort: in every block every viewed unit was used after its last time point, or the undoing scan along the rebuilt index reports nothing |
| `Disorder.RevertBlockExactly` | src/libblockchain/sessions.cpp:859-891 | the same for one block: otherwise the recomputed rewards are others and the revert fails |
| `Disorder.GrantReportsMore` | src/libblockchain/communication_p2p.cpp:459-521 | undoing grants with something out of order reports more slices than the block paid, and the same expirations, with whatever sort |
| `Forks.ChainKeepsInv` | src/libblockchain/sessions.cpp:924-982 | invariant and mirror survive any number of accepted blocks |
| `Blocks.ApplyBlockKeepsInv` | src/libblockchain/sessions.cpp:949-982 | after an accepted block balances, mirror, books, expirations and authorizations are in order for the chain that is one block longer |
| `ForkNode.RevertBlocks` | src/libblockchain/sessions.cpp:854-908 | the loop over the own blocks gets through exactly if the accepted blocks are orderly, and restores chain and stores below them |
| `ForkNode.AcceptBlocks` | src/libblockchain/sessions.cpp:924-982 | the loop over received blocks succeeds exactly if each is accepted when its turn comes |
| `ForkNode.RevertPool` | src/libblockchain/communication_p2p.cpp:774-818 | reverting the complete transactions of the pool backwards never fails; writing the mirror anew then leaves the ledger of the chain with the mirror in step |
| `Transactions.RevertPoolUndoes` | src/libblockchain/communication_p2p.cpp:774-818 | the pool reverted and the mirror written anew is the ledger the pool was built on |
| `Transactions.MirroredIsReady` | src/libblockchain/communication_p2p.cpp:812-815 | writing the mirror anew puts it in step whatever it was, changes nothing else, and nothing at all exactly if it was in step |
| `Forks.SwitchForgets` | src/libblockchain/sessions.cpp:854-982 | what a node makes of other blocks after reverting its own - orderly ones, or any with a sort that leaves the first sponsor first - is what it makes of them without ever having had its own |
| `Blocks.GrantListing` | src/libblockchain/communication_p2p.cpp:488-521 | in which order the sponsorships due are listed makes no difference to rewards and documents |
| `Conservation.ChainConserves` | src/libblockchain/sessions.cpp:924-982 | over any chain of blocks without an early use, balances plus unpaid sponsorships grow by exactly the sum of the emissions if and only if every cancellation in every block took effect |
| `Conservation.ChainAccount` | src/libblockchain/sessions.cpp:924-982 | the exact account of any chain of blocks, with what cancellations withdrew and were returned and what early uses lost |
| `Supply.SupplyOfYears` | src/libblockchain/communication_p2p.cpp:453-526 | the blocks of the first years emit fifty thousand times what the table has for these years |
| `Supply.YearEmits` | src/libblockchain/communication_p2p.cpp:453-526 | so many blocks of a year emit so many times its entry |
| `Claims.SponsorshipIsSettled` | src/libblockchain/communication_p2p.cpp:356-563 | from before it is made to the block it expires in, over any chain of blocks, a sponsorship is paid exactly its amount, less what early uses lose, more what repeated cancellations return; nothing is left after that block unless it waits for a first sponsor whose start is still ahead |
| `Claims.ChainClaim` | src/libblockchain/communication_p2p.cpp:356-563 | the account of one sponsorship over any chain of blocks: newly sponsored and owed before is paid, lost or still owed |
| `Claims.BlockClaim` | src/libblockchain/communication_p2p.cpp:356-563 | the same account for one block: slices, the rest at expiration and returns for cancellations |
| `Claims.ExpiryBlockClaim` | src/libblockchain/communication_p2p.cpp:488-521 | what the expiry block leaves of a sponsorship: nothing, or everything if it waits |
| `Claims.ReturnsSplit` | src/libblockchain/communication_p2p.cpp:415-429 | what a block returns for a sponsorship is what its cancellation withdrew plus the entry once more for every cancellation without effect |
| `DocumentValues.SponsorKeepsTime` | src/libblockchain/documents.cpp:288-310 | a new sponsorship ends by the time of the block that is to expire it, and so do all the others |
| `SecondReturn.SecondReturnExample` | src/libblockchain/communication_p2p.cpp:415-429 | a ledger in order, and a block with nothing but the second cancellation of an exhausted sponsorship, by anyone: it is accepted, whoever asked gets the 3600 the sponsor had got back before, and there are 3600 more than before and the emission |
| `Returns.ReturnsGoToSponsors` | src/libblockchain/communication_p2p.cpp:415-429 | an accepted block returns to every account exactly what it withdrew from the sponsorships that account made if and only if every cancellation took effect; otherwise it returns no less |
| `Returns.CreditsSplit` | src/libblockchain/communication_p2p.cpp:415-429 | what each account is credited: what was withdrawn from its own sponsorships, and the amount of the entry for each cancellation without effect that names it |
| `PoolFees.SecondFeeExample` | src/commander/daemon_rpc.cpp:1383-1411 | an account with 10 and two transactions of fee 10: the node applies both in its pool, the client throws at the second |
| `PoolFees.UpdateIsUnknown` | src/commander/daemon_rpc.cpp:1383-1411 | no client gets past an authorization update in the log, whatever it follows |
| `Blocks.RevertBlockUndoes` | src/libblockchain/sessions.cpp:859-891 | taking an orderly block back recomputes exactly the reward list stored in it, so its check passes, and gives back the whole ledger from before the block: both balance tables, books, flags, expirations, holders, authorizations |
| `Blocks.KeptFirstIsOrderly` | src/libblockchain/documents.cpp:527-554 | with a sort that leaves the first sponsor of a unit first every accepted block is orderly |
| `BlockNode.RevertLastBlock` | src/libblockchain/sessions.cpp:859-891 | the body of the revert loop - block off the chain, rewards checked in revert mode, balances decreased, transactions reverted backwards - succeeds exactly if the accepted block is orderly, and then restores chain and stores, ready for the next round |
| `BlockNode.AcceptBlock` | src/libblockchain/sessions.cpp:949-982 | a block is taken exactly if every transaction applies in turn and the rewards recomputed from its reports equal the stored ones; afterwards the node is valid and its mirror in step for the chain one block longer |
| `Conservation.BlockAccount` | src/libblockchain/sessions.cpp:949-982 | the exact account of a block: balances plus what sponsorships owe change by the emission plus what is returned for cancellations beyond what they withdrew, minus what uses before the first time point lose |
| `Conservation.BlockConserves` | src/libblockchain/sessions.cpp:949-978 | with no such early use, balances plus unpaid sponsorships grow by exactly the emission if and only if every cancellation in the block took effect |
| `Conservation.RevertConserves` | src/libblockchain/sessions.cpp:854-891 | reverting such a block takes exactly the emission away again |
| `Conservation.TransactionKeepsWealth` | src/libblockchain/communication_p2p.cpp:34-66 | a transaction with its fee keeps balances plus unpaid sponsorships, less what a cancellation withdraws |
| `Conservation.ReturnsMatchWithdrawals` | src/libblockchain/communication_p2p.cpp:415-429 | what a block returns for cancellations is at least what they withdrew, and equal to it if and only if all of them took effect |
| `Conservation.GrantOwes` | src/libblockchain/communication_p2p.cpp:356-563 | the rewards of a block add up to the emission, the slices and the returns; what the sponsorships owe falls by slices, expired rests and early losses |
| `Conservation.UsesOwe` | src/libblockchain/communication_p2p.cpp:459-486 | using all viewed units pays out, or loses, exactly what the books owe less |
| `Conservation.ExpiriesOwe` | src/libblockchain/communication_p2p.cpp:488-521 | expiring sponsorships pays out exactly what the books owe less |
| `Blocks.GrantThereAndBack` | src/libblockchain/communication_p2p.cpp:356-563 | granting in revert mode after granting in apply mode yields the same rewards and the documents from before, whatever order the due sponsorships are listed in |
| `Blocks.IncreaseAllKeeps` | src/libblockchain/sessions.cpp:977-978 | increasing all reward balances and decreasing them backwards is the identity on both balance tables |
| `BlockNode.GrantRewards` | src/libblockchain/communication_p2p.cpp:356-563 | from the services in the block to the reward list: the code's loops select the reports that count, compute the specified rewards and documents in both modes, and fail exactly where the specification does, bad reports and a too short emission table included |
| `Services.CollectServices` | src/libblockchain/communication_p2p.cpp:373-414 | the reports of a block go by role into two maps, a later report of a server overwriting an earlier one; fails exactly if a registered server is neither channel nor storage |
| `Services.LastOneCounts` | src/libblockchain/communication_p2p.cpp:373-414 | a server's report counts exactly if it has the role, and then it is its last one |
| `Services.ListReports` | src/libblockchain/communication_p2p.cpp:106-129 | the items of all counting reports, server by server |
| `BlockNode.CollectReturns` | src/libblockchain/communication_p2p.cpp:415-429 | sums the manually cancelled amounts per sponsor; fails exactly if an entry is missing or not cancelled |
| `BlockNode.UseUnits` | src/libblockchain/communication_p2p.cpp:459-486 | uses all viewed units, sums the slices, and fails exactly if a sponsorship is paid twice or a step throws |
| `BlockNode.ExpireUnits` | src/libblockchain/communication_p2p.cpp:488-521 | expires all due sponsorships and adds every payment to its sponsor |
| `BlockNode.DueUnits` | src/libblockchain/communication_p2p.cpp:488-492 | lists exactly the sponsorships due in this block whose unit was not viewed |
| `BlockNode.GrantUnits` | src/libblockchain/communication_p2p.cpp:459-521 | uses first, then the expirations due at that point |
| `BlockNode.MakeRewards` | src/libblockchain/communication_p2p.cpp:523-563 | percentages, three distributions, returns and the miner's part: the rewards sum to emission, slices and returns, nothing lost to rounding; the parts of each kind of reward and who receives them, in plain percentages |
| `RewardParts.BlockInParts` | src/libblockchain/communication_p2p.cpp:356-563 | with anything viewed, the rewards in an accepted block are the parts of the emission and of the slices its uses paid, shared by the shares of its service reports |
| `RewardParts.RewardsInParts` | src/libblockchain/communication_p2p.cpp:523-563 | authors get 40 percent of the emission and 50 of the slices, channels 30 of both, the miner 10 of the emission, storages the rest of both, sponsors their returns; only holders of shares of a group are in it, each with the floors of his shares and of the rounding rest less than one unit for each share |
| `RewardParts.Distributed` | src/libblockchain/communication_p2p.cpp:312-354 | one distribution gives all of its total to the holders of the shares, each of them listed once |
| `BlockNode.DecreaseBalances` | src/libblockchain/sessions.cpp:882-884 | decreases from the last reward to the first; fails exactly if a balance is too small |
| `BlockDocs.UseAllForward` | src/libblockchain/communication_p2p.cpp:459-486 | the uses of a block move every viewed book by one time point, each paid what its own book pays |
| `BlockDocs.UseAllBackward` | src/libblockchain/communication_p2p.cpp:459-486 | undoing orderly uses restores the time points and reports what the uses paid, among whatever other uses and expirations |
| `BlockDocs.ExpireAllForward` | src/libblockchain/communication_p2p.cpp:488-521 | expirations mark exactly the due items, independent of their order, each paid what its untouched book would pay |
| `BlockDocs.ExpireAllBackward` | src/libblockchain/communication_p2p.cpp:488-521 | undoing them clears the marks and reports the same payments |
| `BlockDocs.GrantBackward` | src/libblockchain/communication_p2p.cpp:459-521 | uses and expirations of a block undone together restore the documents with equal payments |
| `BlockDocs.ExpiriesAgree` | src/libblockchain/communication_p2p.cpp:488-521 | the payments of expirations do not depend on the order of the list |
| `BlockRewards.RewardListConserves` | src/libblockchain/communication_p2p.cpp:523-563 | all rewards of a block sum to emission, slices and returned amounts |
| `BlockRewards.NothingViewedRewards` | src/libblockchain/communication_p2p.cpp:523-563 | without views the whole emission falls to the miner, and the list holds nothing else but the returns |
| `BlockRewards.UseOwes` | src/libblockchain/documents.cpp:475-671 | a use, early or not, pays plus loses what the book owes less |
| `BlockRewards.CancelOwes` | src/libblockchain/documents.cpp:475-671 | a cancellation pays what the book owes less |
| `Books.RunSettles` | src/libblockchain/documents.cpp:475-671 | over every run of sponsoring, uses and cancellations, what was left of an item is paid, still left, or lost by a use before the first time point |
| `Books.SponsorshipNeverOverpays` | src/libblockchain/documents.cpp:475-671 | an item never pays more than its amount, and pays it all exactly if nothing is left and nothing was lost |
| `Books.SettledWhenExhausted` | src/libblockchain/documents.cpp:244-286 | nothing is left of an item that is cancelled or was used at or after its end |
| `Settlement.ExpiryBlockSettles` | src/libblockchain/communication_p2p.cpp:488-521 | after the block a sponsorship expires in nothing of it is left, if its unit was viewed, it was cancelled, or the block comes after the unit's last time point - and otherwise everything stays |
| `Settlement.ExpiryLeavesExample` | src/libblockchain/communication_p2p.cpp:488-521 | a book whose second sponsorship ends before the first one starts: expiry returns nothing of it |
| `Books.UseSettles` | src/libblockchain/documents.cpp:546-654 | a use after the last time point pays each item exactly what its remainder shrinks by |
| `Books.EarlyUseLoses` | src/libblockchain/documents.cpp:516-525 | a use not after the last time point pays nothing and moves it past the seconds up to it; only possible while the first sponsor's start is the only point |
| `Books.EarlyUseLosesExample` | src/libblockchain/documents.cpp:516-525 | a concrete book where such a use loses a sixth of a sponsorship |
| `Books.CancelSettles` | src/libblockchain/documents.cpp:546-671 | a cancellation returns all that is left of its item and leaves the others alone |
| `Books.UncancelRestores` | src/libblockchain/documents.cpp:546-671 | undoing a cancellation reports the same payment and restores the flags |
| `Books.UnuseRestores` | src/libblockchain/documents.cpp:527-544 | undoing a use restores the book, with the same payments after an orderly use |
| `Sponsorship.PartIsEarnedDifference` | src/libblockchain/documents.cpp:563-580 | the slice of a time span is the difference of what is earned at its ends: the per-second quotients telescope and the rest comes with the last second |
| `Sponsorship.EarnedEnds` | src/libblockchain/documents.cpp:563-580 | nothing is earned at the start, the whole amount at the end |
| `Sponsorship.SliceIsForward` | src/libblockchain/documents.cpp:566-574 | whatever the scan visits has a slice that does not run backwards |
| `SponsorIndex.RefreshIndex` | src/libblockchain/documents.cpp:244-286 | the rebuilt index lists exactly the items not exhausted, sorted by time to wait; it fails exactly where the code's tests do |
| `SponsorIndex.SortByWait` | src/libblockchain/documents.cpp:278-286 | one sort the library may have: a permutation ordered by waiting time that leaves a first entry without wait first; what holds of every sort is proved for all functions that return some ordered permutation |
| `SponsorIndex.UseOnlyExhausts` | src/libblockchain/documents.cpp:538-544 | after a use the index that is left once exhausted items are dropped is exactly the one of the new book |
| `SponsorIndex.SponsorOnlyAdds` | src/libblockchain/documents.cpp:346-369 | after sponsoring, the old positions and the new item are exactly the index of the new book |
| `SponsorIndex.BreakIsSafe` | src/libblockchain/documents.cpp:546-554 | no item past the early break of the sorted scan would have been visited |
| `SponsorIndex.FastScanIsPlain` | src/libblockchain/documents.cpp:546-654 | the scan along the index with its early break yields the same payments as a plain scan over all items |
| `SponsorIndex.UndoReportsTheUse` | src/libblockchain/documents.cpp:527-544 | undoing a use reports the payments of that use under every admissible order of ties if and only if it came after the last time point or nothing was due |
| `SponsorIndex.EveryUndoReportsTheUse` | src/libblockchain/documents.cpp:516-554 | the same over all library sorts; with a sort that leaves the first entry without wait first it always does |
| `SponsorIndex.EarlyUndoPaysNothing` | src/libblockchain/documents.cpp:537-554 | the first sponsorship of a unit starts at its first time point: listed first, it ends the undoing scan of an early use at once |
| `SponsorIndex.StableKeepsFirst` | src/libblockchain/documents.cpp:276-286 | a stable sort leaves the first entry without wait first |
| `SponsorIndex.Rebuilt` | src/libblockchain/documents.cpp:537-544 | the index rebuilt from all positions is a right one |
| `SponsorIndex.WorstOrder` | src/libblockchain/documents.cpp:527-554 | when time had not moved on, the order of ties that lists early starts first makes the undoing scan report everything that is due |
| `DocumentStore.ScanUse` | src/libblockchain/documents.cpp:546-654 | the scan along the index never pays a sponsorship twice and returns the fast scan's map |
| `DocumentStore.ScanCancel` | src/libblockchain/documents.cpp:546-654 | the scan for one hash finds its item and what is left of it, or nothing is to be paid |
| `DocumentStore.ComputePart` | src/libblockchain/documents.cpp:563-580 | the slice, with the code's running variables |
| `DocumentStore.UseIndexed` | src/libblockchain/documents.cpp:517-544 | a use with its index: new book, right index, payments of the plain scan |
| `DocumentStore.UnuseIndexed` | src/libblockchain/documents.cpp:527-544 | restored book and rebuilt index with exactly the payments the undoing scan reports under the sort at hand, and the exact failure condition |
| `DocumentStore.SponsorIndexed` | src/libblockchain/documents.cpp:346-369 | appending an item with its index |
| `DocumentStore.UnsponsorIndexed` | src/libblockchain/documents.cpp:430-458 | removing the last item with its index |
| `DocumentStore.Documents.SetUsed` | src/libblockchain/documents.cpp:475-671 | the four modes of the operation change the documents as specified, keep every index right, report the specified payments - inexactly only when undoing a use that was not orderly - and throw exactly where the specification fails |
| `DocumentStore.Documents.CancelUnit` | src/libblockchain/documents.cpp:546-671 | the mode with a hash, by hand or by expiry, real or on trial |
| `DocumentStore.Documents.SponsorContentUnitApply` | src/libblockchain/documents.cpp:312-401 | appends the item, keeps the index and enters the expiration |
| `DocumentStore.Documents.SponsorContentUnitRevert` | src/libblockchain/documents.cpp:403-473 | takes the last sponsorship back with its entry; fails exactly where the code's consistency tests do |
| `DocumentStore.Documents.ContentUnitUriSponsorExpiring` | src/libblockchain/documents.cpp:673-694 | lists exactly the entries of the block not cancelled by hand, each once |
| `DocumentStore.Documents.StorageUpdate` | src/libblockchain/documents.cpp:201-230 | adds or removes a holder and drops empty holder sets |
| `DocumentStore.Documents.StorageHasUri` | src/libblockchain/documents.cpp:232-242 | whether the holder is there |
| `DocumentValues.ExpiringBlockIsFirst` | src/libblockchain/documents.cpp:288-310 | the expiring block is the first from the next block on whose time reaches the end of the sponsorship |
| `DocumentValues.SponsorKeepsOk` | src/libblockchain/documents.cpp:312-401 | sponsoring keeps the invariant of books, entries, table and holders |
| `DocumentValues.SponsorRevertRestores` | src/libblockchain/documents.cpp:403-473 | taking a sponsorship back restores books and expirations exactly |
| `DocumentValues.UseBackwardRestores` | src/libblockchain/documents.cpp:527-544 | a use taken back leaves the very same documents; it reports the payments of the use if that came after the last point, or the sort leaves the first first |
| `DocumentValues.CancelKeepsOk` | src/libblockchain/documents.cpp:546-671 | cancelling keeps the invariant |
| `DocumentValues.CancelBackwardRestores` | src/libblockchain/documents.cpp:636-652 | undoing a cancellation finds the same payment and restores flag and entry |
| `DocumentValues.TrialVersusReal` | src/libblockchain/documents.cpp:591-634 | the trial run of a cancellation succeeds and changes nothing although the real one throws, exactly for a wrong account or an item already cancelled |
| `DocumentValues.TrialVersusRealExample` | src/libblockchain/documents.cpp:591-634 | documents where the trial succeeds for a stranger and the real run throws |
| `DocumentValues.StorageUndone` | src/libblockchain/transaction_storageupdate.cpp:71-116 | an update that changes something is undone by the opposite one |
| `Transactions.RevertAllUndoes` | src/libblockchain/communication_p2p.cpp:34-82 | any sequence of applied transactions can be reverted backwards without a throw, and everything is restored |
| `Transactions.RefusedLeavesNoTrace` | src/libblockchain/communication_p2p.cpp:34-66 | an apply that returns false changes nothing; it throws if and only if a cancellation is by the wrong account or of an item already cancelled |
| `Transactions.CanApplyMeansApplies` | src/libblockchain/transaction_handler.cpp:503-678 | an action applies if and only if it may be applied and is no such wrong cancellation |
| `Transactions.RevertUndoesApply` | src/libblockchain/transaction_handler.cpp:593-767 | reverting an action restores the ledger |
| `Transactions.RevertTransactionUndoes` | src/libblockchain/communication_p2p.cpp:68-82 | reverting fee and action restores the ledger |
| `Transactions.TransactionKeepsInv` | src/libblockchain/communication_p2p.cpp:34-66 | applied transactions keep the invariant of all stores |
| `Payers.AppliedExactly` | src/libblockchain/communication_p2p.cpp:34-66 | a transaction is applied if and only if the account it is about - sender, sponsor, the account named in a cancellation, storage, owner of the rights - allowed the signer this kind of action, what it names is there, a cancellation is not a wrong one, and that account has amount and fee |
| `Payers.AppliedPays` | src/libblockchain/transaction_handler.cpp:779-808 | an applied transaction takes amount and, in a block, the fee from that account, and gives them to the receiver and the miner; every other balance stays |
| `Payers.LosersAllowed` | src/libblockchain/transaction_transfer.cpp:46-86 | whoever has less afterwards allowed the signer this kind of action, and lost no more than its amount and the fee |
| `Payers.OwnTransferApplies` | src/libblockchain/transaction_transfer.cpp:46-86 | a transfer signed by a sender with full rights for himself is applied exactly if he has amount and fee |
| `Payers.AwardedKind` | src/libblockchain/transaction_authorization.cpp:158-246 | awarding or rejecting one kind of action lets one actor sign this kind for one owner, or not, and changes no other right |
| `Payers.AwardedAll` | src/libblockchain/transaction_authorization.cpp:158-246 | the same for everything at once |
| `Payers.SponsoringApplied` | src/libblockchain/transaction_sponsoring.cpp:80-108 | an applied sponsoring adds exactly one sponsorship to its unit: of its amount, for its hours from its start, to be given back with the first later block that its end allows |
| `Payers.StorageApplied` | src/libblockchain/transaction_storageupdate.cpp:71-116 | an applied storage update changes whether this storage holds this file, and nothing else |
| `Payers.OthersStay` | src/libblockchain/transaction_handler.cpp:593-678 | applied transactions change the documents by their own kind only: transfers and authorizations not at all, and holders by storage updates alone |
| `NodeStores.StateStore.SetBalance` | src/libblockchain/state.cpp:87-115 | writes or erases the entry in the table of all accounts and, on the chain layer, in the mirror of the own one |
| `NodeStores.StateStore.IncreaseBalance` | src/libblockchain/state.cpp:117-124 | adds to a balance |
| `NodeStores.StateStore.DecreaseBalance` | src/libblockchain/state.cpp:126-137 | takes from a balance; fails exactly if it is too small |
| `NodeStores.Node.ActionCanApply` | src/libblockchain/transaction_handler.cpp:503-591 | answers as specified and leaves every store unchanged |
| `NodeStores.Node.ActionApply` | src/libblockchain/transaction_handler.cpp:593-678 | the apply dispatch over transfer, sponsoring, cancellation, storage update and authorization |
| `NodeStores.Node.ActionRevert` | src/libblockchain/transaction_handler.cpp:680-777 | the revert dispatch, followed by the signature check |
| `NodeStores.Node.FeeApply` | src/libblockchain/transaction_handler.cpp:790-808 | moves the fee from the owner to the miner; nothing for the pool |
| `NodeStores.Node.FeeRevert` | src/libblockchain/transaction_handler.cpp:810-829 | moves the fee back |
| `NodeStores.Node.ApplyTx` | src/libblockchain/communication_p2p.cpp:34-66 | applied, refused without a trace, or thrown, exactly as specified; applied if and only if the account the transaction is about allowed it, what it names is there, and that account can pay |
| `NodeStores.Node.RevertTx` | src/libblockchain/communication_p2p.cpp:68-82 | fee first, then action, exactly as specified |
| `NodeStores.Node.ApplyTxs` | src/libblockchain/sessions.cpp:949-963 | a block's transactions in order; succeeds exactly if each is applied at its turn |
| `NodeStores.Node.RevertTxs` | src/libblockchain/sessions.cpp:886-891 | a block's transactions backwards restore the state before them |
| `Balances.MoveIsUndone` | src/libblockchain/transaction_transfer.cpp:67-109 | a transfer and the opposite one are the identity on both tables |
| `Balances.DecreaseUndoesIncrease` | src/libblockchain/state.cpp:117-137 | decreasing undoes increasing on both tables |
| `Balances.IncreaseUndoesDecrease` | src/libblockchain/state.cpp:117-137 | increasing undoes decreasing on both tables |
| `Balances.StatesAgree` | src/libblockchain/state.cpp:87-115 | states without zero entries are equal if all balances are: erasing at zero makes them canonical |
| `Authority.NormalIsCanonical` | src/libblockchain/authority_manager.cpp:62-182 | a store in normal form is determined by the rights it grants: own record present, no dummy records, no store entry that says nothing |
| `Authority.PutRecord` | src/libblockchain/authority_manager.cpp:109-182 | create, change and clean up together change one right, never throw, and keep the normal form |
| `Authority.AuthorityManager.GetRecord` | src/libblockchain/authority_manager.cpp:62-107 | the record as specified; the inconsistent branches are not reached on a normal store |
| `Authority.AuthorityManager.CheckAuthority` | src/libblockchain/authority_manager.cpp:25-33 | whether the record allows the action |
| `Authority.AuthorityManager.SetRecord` | src/libblockchain/authority_manager.cpp:109-121 | overwrites an existing record, throws otherwise |
| `Authority.AuthorityManager.SmartCreateDummyRecord` | src/libblockchain/authority_manager.cpp:123-149 | opens the records an update is going to change |
| `Authority.AuthorityManager.SmartCleanupDummyRecord` | src/libblockchain/authority_manager.cpp:151-182 | removes what says nothing |
| `Authorization.ApplyThenRevert` | src/libblockchain/transaction_authorization.cpp:72-328 | an update that may be applied applies, keeps the normal form, and its revert is the identity |
| `Authorization.RevertedUndoesApplied` | src/libblockchain/transaction_authorization.cpp:158-328 | inserting and erasing action ids cancel under the conditions checked before |
| `Authorization.ActionCanApply` | src/libblockchain/transaction_authorization.cpp:72-156 | the four kinds of updates are answered as specified |
| `Authorization.ActionApply` | src/libblockchain/transaction_authorization.cpp:158-246 | the loops over action ids change the record as specified |
| `Authorization.ActionRevert` | src/libblockchain/transaction_authorization.cpp:248-328 | the same backwards |
| `Statistics.StatsAreWhole` | src/libblockchain/communication_p2p.cpp:89-309 | either nothing was counted or the shares of authors, channels and storages each sum to exactly one |
| `Statistics.GroupsAreSums` | src/libblockchain/communication_p2p.cpp:181-207 | each group holds for every key the sum of the counted reports with this key |
| `Statistics.CountChannels` | src/libblockchain/communication_p2p.cpp:110-128 | sums what each channel claims per file and storage; fails exactly on a zero count |
| `Statistics.CrossVerify` | src/libblockchain/communication_p2p.cpp:130-150 | a triple is verified exactly if a storage report of it agrees within a fifth with the channel's sum |
| `Statistics.GroupViews` | src/libblockchain/communication_p2p.cpp:181-207 | groups exactly the verified reports |
| `Statistics.AuthorResult` | src/libblockchain/communication_p2p.cpp:221-256 | the authors' shares: equal parts of a file, averaged over the files of a unit |
| `Statistics.ChannelResult` | src/libblockchain/communication_p2p.cpp:258-309 | the channels' shares: half to the server, half to the owner of the content |
| `Statistics.StorageResult` | src/libblockchain/communication_p2p.cpp:209-219 | the storages' shares |
| `Statistics.ValidateStatistics` | src/libblockchain/communication_p2p.cpp:89-309 | the loops together yield the shares of the counted reports, each group a whole or all empty, with the viewed units listed once; fails exactly on a zero count or an unknown file or unit |
| `Statistics.StatsIn` | src/libblockchain/communication_p2p.cpp:89-309 | reports give shares exactly if no count is zero and every file and unit is registered; each group is then a whole or all are empty, and no viewed unit is listed twice |
| `Holders.ChannelOfReports` | src/libblockchain/communication_p2p.cpp:258-309 | every account holds, of the channels' shares, the views it served plus the views of contents it owns, divided by twice all views |
| `Holders.AuthorOfReports` | src/libblockchain/communication_p2p.cpp:221-256 | every account holds, of the authors' shares, for each counted file it is an author of the usage of the unit divided by the files of the unit and the authors of the file, of the usage of all units |
| `Holders.StorageOfReports` | src/libblockchain/communication_p2p.cpp:209-219 | every account holds, of the storages' shares, the counted views it delivered of all counted views |
| `Statistics.MismatchIsAFifth` | src/libblockchain/communication_p2p.cpp:84-87 | two counts mismatch exactly if one is more than 1.2 times the other |
| `Rewards.SumCutsOfWhole` | src/libblockchain/communication_p2p.cpp:312-338 | floored shares of a whole never take more than the total, and leave less than one unit per share |
| `Rewards.SplitConserves` | src/libblockchain/communication_p2p.cpp:312-354 | what is granted is exactly the total |
| `Rewards.SplitIsFair` | src/libblockchain/communication_p2p.cpp:312-354 | every receiver, ascending, gets the floors of his shares, the last one the rest, which is less than the number of shares |
| `Rewards.TakeShares` | src/libblockchain/communication_p2p.cpp:318-338 | the running rest never goes below zero |
| `Rewards.DistributeRewards` | src/libblockchain/communication_p2p.cpp:312-354 | rewards plus what is handed back equal the total; all or nothing of it is handed back |
| `ActionLogs.ActionLog.FindLast` | src/libblockchain/action_log.cpp:170-198 | the search from the cached position finds the top of the stack of unreverted entries, and fails exactly if the stack is empty |
| `ActionLogs.ActionLog.Revert` | src/libblockchain/action_log.cpp:170-209 | appends the reverse of that entry, pops the stack and keeps the cache right |
| `ActionLogs.ActionLog.Insert` | src/libblockchain/action_log.cpp:159-168 | appends an applied entry with its position and pushes it |
| `ActionLogs.ActionLog.LogAction` | src/libblockchain/action_log.cpp:67-152 | logs only if enabled |
| `ActionLogs.ActionLog.Commit` | src/libblockchain/action_log.cpp:46-49 | what was logged becomes the committed log that discarding goes back to |
| `ActionLogs.ActionLog.Discard` | src/libblockchain/action_log.cpp:51-55 | goes back to the committed log with a right cache |
| `ActionLogs.ActionLog.Clear` | src/libblockchain/action_log.cpp:57-60 | empties the log; the stale cache does no harm, since every search fails on an empty log |
| `ActionLogs.StackBelow` | src/libblockchain/action_log.cpp:170-209 | under an element of the stack lies the stack of the log before it |
| `ActionLogs.RevertPops` | src/libblockchain/action_log.cpp:200-208 | after a revert the search may start just before the reverted entry |
| `GetActions.ReplayOfWindow` | src/libblockchain/communication_rpc.cpp:30-97 | replaying the compressed window on what was in force at its start gives what is in force at its end |
| `GetActions.RestartIsConsistent` | src/libblockchain/communication_rpc.cpp:30-97 | after the last entry of a window the same actions are in force as at its end |
| `GetActions.AnswerIsNormal` | src/libblockchain/communication_rpc.cpp:30-97 | an answer lists reverts, then applies, at growing positions within the window |
| `GetActions.AnswerReplays` | src/libblockchain/communication_rpc.cpp:30-97 | replaying an answer is right, and the client may restart behind its last entry; an empty answer means it has caught up |
| `GetActions.AnswerIsBounded` | src/libblockchain/communication_rpc.cpp:30-97 | no answer has more entries than were asked for, nor more than ten thousand |
| `GetActions.Answering` | src/libblockchain/communication_rpc.cpp:30-97 | the two loops answer the window that ends as soon as it is full, and throw exactly if only reverts that do not fill the answer are left |
| `GetActions.LeadingReverts` | src/libblockchain/communication_rpc.cpp:44-64 | the first loop, which reads one entry before testing the end |
| `GetActions.StuckExample` | src/libblockchain/communication_rpc.cpp:44-64 | a log of one action and its revert: asking from behind the action makes the code read past the end |
| `GetActions.ActionSize` | src/libblockchain/communication_rpc.cpp:13-28 | the size of an action is at least one |
| `GetActions.Unstack` | src/libblockchain/communication_rpc.cpp:84-95 | empties the stack into the answer in order |
| `Following.Sync` | src/commander/daemon_rpc.cpp:1247-1535 | on a fixed log the client's loop ends; it reaches the image of the whole log's stack exactly if every request it makes on the way can be answered and leads to a stack that is payable or only shorter |
| `Following.PayableLogsFollow` | src/commander/daemon_rpc.cpp:1247-1535 | a log that ends in an applied entry and all of whose stacks are payable can be followed from everywhere |
| `Following.UnpayableEnds` | src/commander/daemon_rpc.cpp:1247-1535 | a client whose last answer applies something cannot follow a log that ends in a stack it cannot pay |
| `Following.Step` | src/commander/daemon_rpc.cpp:1252-1290 | one request and the processing of its answer: succeeds exactly if the request can be answered and the stack its answer leads to is payable, or the answer only reverts; says where the client asks next |
| `Following.ProcessAll` | src/commander/daemon_rpc.cpp:1288-1517 | replaying an answer keeps the state the image of the stack and counts the same size as the node |
| `Commander.Client.ApplyBlock` | src/commander/daemon_rpc.cpp:1304-1382 | a block moves the client to the image of the longer stack; throws exactly if a transaction is unknown or its payer cannot afford it |
| `Commander.Client.RevertBlock` | src/commander/daemon_rpc.cpp:1415-1487 | reverting a block gives the image before it; no test on the index and no balance fails |
| `Commander.Client.ApplyPool` | src/commander/daemon_rpc.cpp:1383-1411 | a pool transaction counts for the block to come |
| `Commander.Client.RevertPool` | src/commander/daemon_rpc.cpp:1488-1516 | reverting it gives the image before it |
| `Commander.Client.ApplyTransactions` | src/commander/daemon_rpc.cpp:610-642 | every account taking part gets the transaction exactly once; throws exactly for an action it does not know |
| `Commander.Client.RevertTransactions` | src/commander/daemon_rpc.cpp:610-642 | and loses it again |
| `Commander.Client.ApplyBalances` | src/commander/daemon_rpc.cpp:535-570 | amount, then fee; throws exactly if the payer cannot afford one of them |
| `Commander.Client.RevertBalances` | src/commander/daemon_rpc.cpp:571-606 | the reverse never goes below zero after an apply that succeeded |
| `Commander.Client.UpdateBalance` | src/commander/daemon_rpc.cpp:374-403 | changes the balance of a followed account only |
| `Commander.IntervalIsBlock` | src/commander/daemon_rpc.cpp:405-463 | with blocks below the pool, the interval of a block in an account's index holds exactly the block's transactions of the account, in order |
| `Commander.RewardIntervalIsBlock` | src/commander/daemon_rpc.cpp:405-463 | the same for the block's rewards of the account |
| `Commander.RecordedInOrder` | src/commander/daemon_rpc.cpp:405-463 | the entries of an account are ordered by block |
| `Journals.IndexPartitions` | src/commander/daemon_rpc.cpp:426-441 | the index cuts the log into one interval per block |
| `Journals.IntervalsAscend` | src/commander/daemon_rpc.cpp:426-441 | later blocks have later intervals |
| `Journals.Push` | src/commander/daemon_rpc.cpp:423-441 | adding to the newest block never fails the test on the index |
| `Journals.Pop` | src/commander/daemon_rpc.cpp:442-461 | removing from the newest block never fails the tests and restores log and index |
| `History.RangeBreak` | src/commander/rpc.hpp:43-99 | five stretches that follow one another, cover exactly the two ranges and overlap only in the common one, empty and disjoint ranges included |
| `History.GetHistory` | src/commander/rpc.cpp:233-384 | the five loops list every indexed block of the window once, in increasing order, transactions before rewards |
| `History.NextStretch` | src/commander/rpc.cpp:300-376 | between the stretches and inside them nothing is missed |
| `History.MirrorIsWalkable` | src/commander/rpc.cpp:68-117 | the lookups of the walkers always succeed on what a client keeps |
| `History.HistoryOfBlock` | src/commander/rpc.cpp:98-231 | for a block of the window below the pool the walkers list exactly the block's own transactions of the account, then its own rewards of the account |
| `History.Hull` | src/commander/rpc.cpp:279-290 | the smallest range of all selected blocks, or an empty one |
| `History.Selected` | src/commander/rpc.cpp:244-268 | exactly the indexed blocks of the window; a count that overflows means no upper bound |
| `History.WindowIsExact` | src/commander/rpc.cpp:244-268 | on words the test with its overflow case is exactly the window of numbers from the start on |
| `Statements.Statement` | src/commander/rpc.cpp:233-384 | the history of an account over a window of blocks adds up to the change of its balance: received, fees received and rewards, less sent, sponsored and fees sent |
| `Statements.BlockNet` | src/commander/rpc.cpp:68-231 | so do the items of one block |
| `Statements.TransactionNet` | src/commander/rpc.cpp:102-231 | and those of one transaction |
| `Statements.TransactionsCarry` | src/commander/rpc.cpp:102-231 | items of a transaction carry number and confirmations of their block and the time of the transaction |
| `Statements.RewardsCarry` | src/commander/rpc.cpp:68-100 | the item of a reward carries number, confirmations and time of its block, amount and kind of the reward |
| `Statements.ItemsName` | src/commander/rpc.cpp:102-231 | items of a transaction name the other side: sender or receiver of a transfer, unit and span of a sponsorship, the miner of the block or the payer of a fee |
| `Statements.ConfirmationsCount` | src/commander/rpc.cpp:84-84 | a block has one confirmation for itself and one for each block on it |
| `Consensus.CheckDeltaVector` | src/libblockchain/communication_p2p.cpp:705-772 | accepts exactly if every constant from the fourth on follows the rule of the three deltas before it; returns the rule's next value, or the first wrong index |
| `Consensus.OneStep` | src/libblockchain/communication_p2p.cpp:739-762 | one pass over three deltas with the comparison on the way |
| `Consensus.ValidatorWindow` | src/libblockchain/sessions.cpp:525-546 | a validator's window accepts exactly if all headers after the common block follow the rule on the whole chain |
| `Consensus.MinerWindow` | src/libblockchain/communication_p2p.cpp:830-849 | the miner's window is never wrong and asks for the same value as the whole chain |
| `Consensus.MinedIsAccepted` | src/libblockchain/sessions.cpp:525-546 | a mined header is accepted from every earlier common block if and only if it has the miner's value or is among the first three headers |
| `Consensus.AcceptedInNumbers` | src/libblockchain/communication_p2p.cpp:705-772 | as long as nothing exceeds a word, a chain follows the rule if and only if every constant from the fourth on is doubled where the three deltas before it are above four thousand million on average, halved where they are below one thousand million and it is above one, and otherwise kept |
| `Chains.Blockchain.Insert` | src/libblockchain/blockchain.cpp:112-125 | only a block with the next number is taken, and a block linked to the last hash keeps the chain linked |
| `Chains.Blockchain.RemoveLastBlock` | src/libblockchain/blockchain.cpp:157-166 | removes all but the genesis and refreshes the cached header and hash |
| `Chains.Blockchain.HeaderExAt` | src/libblockchain/blockchain.cpp:136-155 | on a linked chain the hash taken from the next header or the cache is the block's own |
| `HeaderSync.HeaderSession.ProcessResponse` | src/libblockchain/sessions.cpp:459-561 | every response ends in an error, in a longer run that has not met the own chain, or in the run down to the first header that builds on it; as long as the session waits, responses are at most the promised number plus one |
| `HeaderSync.HeaderSession.Validate` | src/libblockchain/sessions.cpp:465-484 | accepts exactly a non-empty, contiguous, linked run from the promised header that is not from the future |
| `HeaderSync.HeaderSession.FindLastCommon` | src/libblockchain/sessions.cpp:486-507 | the first header from the top that builds on an own block |
| `HeaderSync.HeaderSession.CheckConstants` | src/libblockchain/sessions.cpp:525-546 | the test of the difficulty constants is the rule on the joined chain |
| `HeaderSync.CheckHeadersVector` | src/libblockchain/sessions.cpp:571-582 | whether some header does not follow the next |
| `HeaderSync.FrontAndBack` | src/libblockchain/sessions.cpp:476-478 | comparing front and back is comparing all numbers |
| `HeaderRuns.FollowsInNumbers` | src/libblockchain/communication_p2p.cpp:567-582 | the test of two neighbours without wrap-around: next number, right hash, ten minutes later, a sum that grew by a delta above zero, a constant kept, doubled or halved |
| `HeaderRuns.RunAddsUp` | src/libblockchain/communication_p2p.cpp:567-582 | the sums of a run that passed the checks differ by exactly its deltas, none of them zero, and its times by ten minutes for each header |
| `HeaderRuns.StoredAddsUp` | src/libblockchain/sessions.cpp:459-561 | a run that was stored stands for more work than the own chain up to the common block, by exactly its deltas |
| `HeaderRuns.StoredFollowsRule` | src/libblockchain/sessions.cpp:525-546 | every constant of a stored run is the one that the three headers before it, own or downloaded, ask for |
| `HeaderRuns.RuleIsAStep` | src/libblockchain/communication_p2p.cpp:567-582 | a constant that follows the rule never fails the test of two neighbours |
| `HeaderSync.CommonIsHighest` | src/libblockchain/sessions.cpp:486-528 | the stored headers end above a block both chains have, and above it the chains share no block below the promised one |
| `HeaderSync.NewsIsNotHeld` | src/libblockchain/node.cpp:1730-1737 | for a promised header as sessions are started for, the chains share no block above the common one up to and with the promised one |
| `HeaderSync.HeldPromiseEndsAtOnce` | src/libblockchain/sessions.cpp:486-528 | without collisions of hashes, a promised block the own chain already holds is found alone |
| `HeaderSync.ProcessRequest` | src/libblockchain/sessions.cpp:433-457 | answers one to fifty headers downward from the highest one available |
| `HeaderSync.RequestedRange` | src/libblockchain/sessions.cpp:433-457 | these are the own headers from the highest there is or was asked for, down to the lowest asked for, but no more than fifty |
| `HeaderSync.Synchronise` | src/libblockchain/sessions.cpp:459-561 | with an honest peer of the same genesis the download always completes |
| `Clustering.ShareClusters` | src/libblockchain/communication_p2p.cpp:1049-1119 | every transaction gets size and fees of its connected component, and exactly one search is made in each component |
| `Clustering.Search` | src/libblockchain/communication_p2p.cpp:1079-1111 | the breadth-first search ends with exactly the component |
| `Clustering.IndexParticipants` | src/libblockchain/communication_p2p.cpp:1049-1061 | the index lists for every participant exactly his transactions |
| `Clustering.SameCluster` | src/libblockchain/communication_p2p.cpp:1113-1118 | members of a component have the same component |
| `ServiceCounters.ServiceCounter.TakeStatisticsInfo` | src/libblockchain/node_internals.hpp:143-239 | a report counts exactly the records never counted before, its counts sum to their number, and it has one item per pair of uris |
| `ServiceCounters.ServiceCounter.Serve` | src/libblockchain/node_internals.hpp:129-141 | accepts a record exactly from a minute before its time until its seconds and a minute more are over, and never forgets that it was counted |
| `ServiceCounters.MarkedAfter` | src/libblockchain/node_internals.hpp:129-239 | what was counted stays marked or is too old to come back, so nothing is counted twice over any run with a clock that does not go back |
| `ServiceCounters.WhoIsKept` | src/libblockchain/node_internals.hpp:143-239 | a record is kept exactly until its seconds and the tolerance are over |
| `ServiceCounters.CountRecords` | src/libblockchain/node_internals.hpp:181-201 | counts what was not counted, drops what is too old |
| `ServiceCounters.AddCount` | src/libblockchain/node_internals.hpp:203-230 | a count goes to the one item of its uris |
| `Coins.Coin.Add` | src/libblockchain/coin.cpp:52-65 | the sum modulo all that two words can hold |
| `Coins.Coin.Subtract` | src/libblockchain/coin.cpp:67-88 | exact; throws exactly if the result would be negative |
| `Coins.Coin.Multiply` | src/libblockchain/coin.cpp:90-98 | exact modulo all there can be, if and only if the product of the fraction fits a word |
| `Coins.Coin.Divide` | src/libblockchain/coin.cpp:100-109 | the floor of the quotient if and only if the rest of the whole coins, scaled, fits a word |
| `Coins.DivisionExample` | src/libblockchain/coin.cpp:100-109 | a division whose wrapped rest gives another quotient |
| `Coins.Coin.Remainder` | src/libblockchain/coin.cpp:111-115 | the remainder under the same condition |
| `Coins.ComparesValues` | src/libblockchain/coin.cpp:117-152 | comparing pairs is comparing amounts |
| `Coins.SplitQuotient` | src/libblockchain/coin.cpp:100-109 | dividing whole coins first and their rest with the fraction is dividing the amount |

## Left out

- Actions on files, content units, contents, roles and service statistics: they insert, remove or check one entry, and their undoing adds only easy members.
- GrantRewards: the service reports of a block are kept apart from its other transactions (`Block.services`); their fees, and the changes of roles by other actions, are not modelled.
- ValidateStatistics: the number of views per unit and channel is not computed, because it is only logged; the units viewed are.
- The alternative counting functions for channels (node_internals.hpp) besides the default one.
- AcceptBlock: the tests of a block for delta, miner balance, role, authority, times of transactions, service statistics and double use are not part of it; the transactions of what passes them are new (`Transactions.AllNew`).
- AcceptBlocks: the same tests of each block.
- Channel, storage and statistics records of the client: re-approving content is not undone exactly by the code.
- Saving, committing and discarding of files, except for the action log, where the cached index depends on it.
- The counter of the backward search in the action log is a 32-bit number in the code and unbounded here.
- Sockets, events, message formats, signatures, encryption, configuration, timers, peers and voting.
- Emission: the code reads its table before testing the bound; behind the end the model has no value, the code's behaviour is undefined.
- RewardList: products of a total with a numerator, and of denominators, are unbounded here; the code computes them with 64-bit words, exact under the bounds of `Coins`.
- BlockConserves: for blocks without a use before the first time point; `BlockAccount` has the exact account of all blocks.
- ChainConserves: for chains of such blocks; `ChainAccount` has the exact account of all chains.
- RevertBlockUndoes: for orderly blocks; `Disorder.RevertBlockExactly` says what happens to all others under each sort.
- RevertChainUndoes: the same for chains; `Disorder.RevertChainExactly` has all of them.
- SwitchChain: without the tests named at `AcceptBlock`; which transactions are complete, and which are neither expired nor in the cache, are inputs (`Reoffering.Choice`).
- Enqueue: a transaction received from a peer that is refused makes the code throw; nothing of it stays either way.
- Reverting log entries or blocks on command, clearing everything before a new synchronisation (node_internals.cpp:15-115), and the choice of transactions to mine.
- Sync: the log does not grow while the client follows it; every other state of the client is covered by the steps.
- TakeStatisticsInfo: times are whole seconds; the code's hash functions of the records are not modelled.
- The five kinds of actions are matched in one place here, the code dispatches by type number; unknown types cannot occur.
