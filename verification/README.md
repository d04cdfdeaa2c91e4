# A Dafny model of a Graphene node's state machine

The project models the parts of the node that keep its state consistent, and proves what they promise:

- the undo log, as a stack of diffs that refines a stack of complete snapshots, and the class that updates it in place;
- fork switching, the fork database's branch search, transaction de-duplication and the last irreversible block, all of
  them on top of the undo log;
- the market: limit orders, margin calls, black swans, redemption from the settlement fund, force settlement;
- the core supply: fees, cashback, witness pay, the maintenance budget, fee-backed assets, migration;
- vesting balances, the slot clock and the witness schedule;
- the block log with its replay, and the block synopsis that two nodes exchange;
- the SHA-3 sponge and the Keccak-f[1600] permutation of FIPS 202.

Code that updates objects in place is a class or a method with loops, proved against specification functions on values;
code that only computes is a function. Straight-line field updates (filling an order, redeeming) are functions from
state to state, and the loops and objects around them are methods. `dafny verify dfyconfig.toml` checks everything.

## Files

| file | contents |
|---|---|
| `Common.dfy` | what several components share |
| `UndoDiff.dfy`, `UndoLog.dfy`, `UndoDatabase.dfy` | diffs and their merge table; runs of the log against snapshots; the class |
| `Blocks.dfy`, `ForkDatabase.dfy` | blocks; the cache of recent blocks, and branches back to a common parent |
| `ForkSwitch.dfy`, `BranchSwitch.dfy` | what blocks do to the undo history; how a change of branches ends, and when it gets stuck |
| `ChainDatabase.dfy` | the object that pushes, pops and switches |
| `TransactionDedup.dfy`, `Irreversible.dfy` | duplicate and expiry checks; the irreversible block and how far one can pop back |
| `Market.dfy`, `Matching.dfy`, `Exchange.dfy` | orders and fills; price order and matching; the matching loops |
| `Redemption.dfy`, `ForceSettlement.dfy` | redeeming from the settlement fund; expired force settlements |
| `Supply.dfy`, `Vesting.dfy`, `Schedule.dfy` | the core ledger; vesting policies; slots, shuffle and witness pay |
| `BlockLog.dfy`, `Sync.dfy` | the block file and its index; synopsis and reply |
| `Keccak.dfy`, `KeccakBytes.dfy` | the permutation on lanes, and on bytes |
| `Sponge.dfy`, `Sha3.dfy` | the sponge; the digests |
| `Arithmetic.dfy`, `MapSums.dfy` | rounding division; sums over maps |

## Assumptions

- An amount times a price rounds down; an asset's reserve is its maximum supply less its current supply.
- Creating an object takes exactly the next id of its index and then raises it.
- A session that goes out of scope without commit or merge calls undo.
- Applying a block to a state is deterministic, closes the sessions it opens, and moves the head from parent to block.
- Sessions inside a block nest one deep: a proposal executes in a session of its own, and a proposal cannot contain the
  operation that executes one (`libraries/chain/proposal_evaluator.cpp:60` refuses it). `Regular` relies on this.
- The id of a block, and of a transaction, names one of them only.
- Of a market-issued asset no more is held than was issued; balances outside the model may hold the rest.
- Packing and unpacking a block are inverse, with at least one byte for every block.
- Percentages that are split together add up to at most a hundred percent.

## What the proofs found

- The expiry index of transactions is ascending (`libraries/chain/include/graphene/chain/transaction_object.hpp:62-69`), so
  the clean-up loop looks at the entry that expires last: it removes all entries or none. Nothing is ever applied twice
  because of it; expired entries only stay longer. `ClearExpired` says exactly when, `ExpiredEntryLingers` is an instance.
- Merging needs two entries, so a session that only changes objects can be merged exactly when the stack had an entry
  before it and the history limit let it stay (`MergeNeedsAnEntryBelow`, with an instance in
  `OutermostSessionCannotMerge`).
- Starting a session keeps every snapshot a caller still relies on if and only if there are no more of them than the
  configured history (`StartKeepsBacking`).
- After an inner session commits, undoing the outer one goes back to the start of the inner one only
  (`InnerCommitMisleadsOuterUndo`, with an instance in `InnerCommitKeepsOuterChange`).
- A failed fork switch is not always rolled back. The rollback sets the fork database back to the old head and pops its
  head once per block that had been applied; where the old head has fewer live ancestors than that, the pop throws and
  the chain stays on the bad branch. An ancestor is alive while it is in the index or one of the two branches, which the
  switch holds on to until it ends (`libraries/chain/db_block.cpp:145`). `GetsStuck` is the exact condition, from every
  state. The old head has at least all its branch but the last for ancestors (`OldHeadDepth`). So from a steady state,
  where the new branch is one block longer, the switch gets stuck if and only if only its newest block fails and the
  parent of the fork is not a live ancestor (`StuckIff`, `OnlyNewestFails` in the contract of `PushBlock`). A fork at
  block 1 never has that parent (`NoWayBackToGenesis`, with an instance in `StuckAtGenesis`).
- A block that fails on top of the chain leaves the index of the fork database but stays its head, and the next push
  compares with that head. `SteadyAt` describes the states this leads to.
- A block that comes back into the fork database after it was removed is not linked to its cached children again
  (`PushKeepsParents`), so a branch through it is never found; `PushWeaves` is the exact condition.
- `fetch_branch_from` meets at the ancestor itself when one block descends from the other, so the shared parent is then
  one below the most recent common ancestor that its comment names. `HighestIffUnrelated` is the exact condition,
  `MeetsBelowAncestor` an instance.
- The number of the last block that cannot be undone wraps around exactly when there are more undo entries than blocks
  (`LastNonUndoableIsOnChain`, with an instance in `PendingSessionWraps`). The code does not check for it: asked to
  summarize the whole chain it then indexes an empty vector, out of bounds (`libraries/app/application.cpp:793`).
- A node that has a longer fork cannot always answer its peer: looking up a known block whose number lies above the own
  chain throws, even where an earlier block of the synopsis is shared. `ReplyStartsAtHighestShared` and
  `SynopsisIsAnswered` give the exact condition, `LongerForkIsNotAnswered` is an instance.
- A deposit into a linearly vesting balance makes the policy's own assertions fail exactly when it is more than what has
  been withdrawn so far (`LinearDepositTripsAssertion`, with an instance in `LateDepositFails`). No caller in the
  repository deposits into one: `libraries/chain/db_balance.cpp:99` lets only the other policy through.
- The witness budget is divided by enough blocks exactly when the maintenance time is a multiple of the block interval or
  lies later within its slot than the present does (`BlocksFitIff`, with an instance in `OneBlockTooMany`).
- A comment says that without bids there is no black swan (`libraries/chain/db_update.cpp:195-199`); the code then compares with
  the feed alone, and the model follows the code.
- `filled_limit` in `check_call_orders` is never reset, so after the first filled order every further match moves on to
  the next bid. The model does the same. When the order under the iterator is culled, the model goes on with the next one.
- The cap of a force settlement is cached for an asset id that starts as the core asset, so it is never computed for that
  asset; the model keeps this.

## Model

| member | source | states |
|---|---|---|
| ObjectStore.CreatedIs | libraries/db/include/graphene/db/index.hpp:215-216 | objects created one after the other get consecutive ids, none of which was taken, and nothing else changes |
| UndoDiff.RevertRestores | libraries/db/undo_database.cpp:95-125 | a diff that explains how two stores differ turns the later into the earlier one exactly, next ids included, and every lookup, removal and insertion on the way succeeds |
| UndoDiff.CreateReverts | libraries/db/undo_database.cpp:47-59 | recording a creation keeps the diff an exact explanation back to the same earlier store |
| UndoDiff.ModifyReverts | libraries/db/undo_database.cpp:60-72 | the same for a modification, whether or not the object was touched before |
| UndoDiff.RemoveReverts | libraries/db/undo_database.cpp:73-93 | the same for a removal, in all four cases |
| UndoDiff.NoImpossibleCell | libraries/db/undo_database.cpp:132-191 | two consecutive diffs never reach a cell that the merge table marks as not applicable |
| UndoDiff.MergeFollowsTable | libraries/db/undo_database.cpp:132-240 | for every object the merged diff says exactly what the table says, and the three containers stay disjoint |
| UndoDiff.MergeReverts | libraries/db/undo_database.cpp:127-240 | the merged diff goes back over both sessions at once |
| UndoLog.StepRefines | libraries/db/undo_database.cpp:33-283 | every call is accepted by the diff stack exactly when it is by the snapshot stack, and keeps the one a refinement of the other |
| UndoLog.RunRefines | libraries/db/undo_database.cpp:33-283 | the same over whole runs of create, modify, remove, start, undo, merge, commit, pop and eviction |
| UndoLog.ReachableRefines | libraries/db/undo_database.cpp:33-283 | every log a run can reach refines some stack of snapshots |
| UndoLog.MergeThenUndo | libraries/db/undo_database.cpp:95-240 | on every reachable stack, undoing once after a merge leaves the whole log as undoing twice without it; containers stay disjoint, no impossible cell is reached |
| UndoLog.StartKeepsBacking | libraries/db/undo_database.cpp:33-46 | eviction keeps all copies callers rely on if and only if they are no more than the history limit |
| UndoLog.StepKeepsBacking | libraries/db/undo_database.cpp:33-283 | every other disciplined call keeps them |
| UndoLog.RunKeepsBacking | libraries/db/undo_database.cpp:33-283 | whole runs with enough room keep every copy callers rely on |
| UndoLog.DroppingSessionRestores | libraries/chain/db_block.cpp:228-251 | whatever happens in a session with balanced inner sessions, dropping it brings the head state back |
| UndoLog.UndoRestores | libraries/db/undo_database.cpp:95-125 | undo goes back to the copy the innermost open session was started from |
| UndoLog.InnerCommitMisleadsOuterUndo | libraries/db/undo_database.cpp:241-246 | after an inner commit the outer undo reaches the inner start; it is the outer start only if the two are equal |
| UndoLog.InnerCommitKeepsOuterChange | libraries/db/undo_database.cpp:241-246 | from any fresh database: start, modify, start, commit, undo leaves the modification in place |
| UndoLog.MergeNeedsAnEntryBelow | libraries/db/undo_database.cpp:33-46 | a session in which objects were only created, changed and removed can be merged if and only if the stack had an entry before and the history limit let it stay |
| UndoLog.OutermostSessionCannotMerge | libraries/db/undo_database.cpp:127-131 | an instance: forced open on an empty stack, it refuses to be merged; with an inner session committed in it, it does not |
| UndoDatabase.MergeInto | libraries/db/undo_database.cpp:176-240 | the container-by-container loops compute the merged diff |
| UndoDatabase.MergeUpdates | libraries/db/undo_database.cpp:176-193 | the outer old value wins, new objects get none |
| UndoDatabase.MergeRemovals | libraries/db/undo_database.cpp:215-237 | removals cancel creations, take over old values, and are recorded otherwise |
| UndoDatabase.MergeNextIds | libraries/db/undo_database.cpp:199-213 | the outer next id wins |
| UndoDatabase.UndoDatabase.constructor | libraries/db/include/graphene/db/undo_database.hpp:140-144 | recording is off, the log is empty and the history is 256 |
| UndoDatabase.UndoDatabase.Enable | libraries/db/undo_database.cpp:30-31 | once recording is on, the log refines the snapshots |
| UndoDatabase.UndoDatabase.Create | libraries/db/undo_database.cpp:47-59 | the new object is new, gets the next id of its index, and log and snapshots make the same step |
| UndoDatabase.UndoDatabase.Modify | libraries/db/undo_database.cpp:60-72 | log and snapshots make the same step; unknown ids are refused |
| UndoDatabase.UndoDatabase.Remove | libraries/db/undo_database.cpp:73-93 | log and snapshots make the same step; unknown ids are refused |
| UndoDatabase.UndoDatabase.EvictOldest | libraries/db/undo_database.cpp:40-43 | the loop leaves exactly the newest entries within the limit |
| UndoDatabase.UndoDatabase.Disable | libraries/db/undo_database.cpp:30-31 | recording stops and nothing else changes |
| UndoDatabase.UndoDatabase.StartSession | libraries/db/undo_database.cpp:33-46 | eviction and the new entry, on log and snapshots alike; with recording off only a forced session starts, and switches it on |
| UndoDatabase.UndoDatabase.RestoreFrom | libraries/db/undo_database.cpp:100-118 | the four restoring loops end in exactly the recorded store |
| UndoDatabase.UndoDatabase.UndoSession | libraries/db/undo_database.cpp:95-125 | the store becomes the last snapshot; refused without an open session |
| UndoDatabase.UndoDatabase.MergeSessions | libraries/db/undo_database.cpp:127-240 | the store stays, the last snapshot is forgotten; refused without two entries |
| UndoDatabase.UndoDatabase.CommitSession | libraries/db/undo_database.cpp:241-246 | only the session count falls |
| UndoDatabase.UndoDatabase.PopCommitted | libraries/db/undo_database.cpp:247-283 | the store becomes the last snapshot; refused inside a session or on an empty stack |
| ForkSwitch.HistoryReplays | libraries/chain/db_block.cpp:128-207 | replaying the blocks from any state of the history leads to the present state |
| ForkSwitch.HeadsGrow | libraries/chain/db_block.cpp:147-149 | heights grow by one per block, so the head meets the fork point only there |
| ForkSwitch.CalmIsAmple | libraries/chain/db_update.cpp:89-99 | if no block moves the irreversible block past the fork point, no entry a rollback needs is evicted |
| ForkSwitch.SessionHolds | libraries/chain/db_block.cpp:195-207 | a block's session either ends in its effect with one more entry, or leaves everything as it was |
| ForkSwitch.PopHolds | libraries/chain/db_block.cpp:406-419 | popping a block's entry leads to the state the block was applied to, and what older entries restore stays known |
| ForkSwitch.CacheAfterIs | libraries/chain/db_update.cpp:98-99 | the fork database follows the limit of the undo history, and loses the blocks that were too low at any time |
| ForkDatabase.Push | libraries/chain/fork_database.cpp:58-106 | a block is refused exactly if it is too old or its parent is not cached; otherwise the cached blocks, the head and what is pruned are exactly these |
| ForkDatabase.PushKeeps | libraries/chain/fork_database.cpp:74-106 | what a push leaves cached: the new block and the very items that were there, no more than the limit below a head that has just risen |
| ForkDatabase.PushRaisesHead | libraries/chain/fork_database.cpp:92-96 | the new block becomes the head if and only if it is higher |
| ForkDatabase.PushLinksToParent | libraries/chain/fork_database.cpp:84-90 | a new block, and a new head, is linked to the cached item of its parent, unless that one is too low to stay |
| ForkDatabase.PushKeepsParents | libraries/chain/fork_database.cpp:74-106 | the other blocks keep their parents as far as they stay, and get none back that was removed in between |
| ForkDatabase.PushWeaves | libraries/chain/fork_database.cpp:74-106 | every cached block stays linked to its cached parent, if and only if the push does not bring a block back below its children |
| ForkDatabase.PathIsChain | libraries/chain/fork_database.cpp:74-106 | then every path of cached blocks is linked |
| ForkDatabase.LongerForkIsFound | libraries/chain/fork_database.cpp:58-106 | an instance with four blocks: the longer fork becomes the head, and its branch is found |
| ForkDatabase.SetMaxSize | libraries/chain/fork_database.cpp:129-145 | a smaller limit drops exactly the heights below it |
| BranchSwitch.AncestryIsChain | libraries/chain/db_block.cpp:128-145 | the ancestry of the chain's head in the fork database is the chain, as far as it is cached |
| BranchSwitch.SteadyPush | libraries/chain/fork_database.cpp:74-106 | from a steady state a push caches nothing higher than one above the chain, and there only the new block |
| BranchSwitch.SteadySwitch | libraries/chain/db_block.cpp:128-149 | from a steady state a switch leads to a branch one block longer, and the fork database has every ancestor that popping the old branch takes |
| BranchSwitch.OldHeadDepth | libraries/chain/db_block.cpp:164-188 | when a rollback begins the old head has at least as many live ancestors as its branch has blocks less one, and only that many if and only if the parent of the fork is gone |
| BranchSwitch.StuckIff | libraries/chain/db_block.cpp:164-188 | with a new branch one block longer, the switch gets stuck if and only if only its newest block fails and the parent of the fork is not a live ancestor |
| BranchSwitch.NoWayBackToGenesis | libraries/chain/db_block.cpp:164-188 | a fork at block 1 of which only the newest block fails is never rolled back completely |
| BranchSwitch.StuckAtGenesis | libraries/chain/db_block.cpp:164-188 | an instance with three blocks |
| ChainDatabase.ChainDatabase.constructor | libraries/chain/db_management.cpp:111-137 | a chain without blocks starts out valid and steady |
| ChainDatabase.ChainDatabase.ApplyBlock | libraries/chain/db_block.cpp:156-162 | a block that applies adds its effect and one entry; one that throws changes nothing but what the fork database forgot |
| ChainDatabase.ChainDatabase.PopBlock | libraries/chain/db_block.cpp:406-419 | the state before the block comes back and its transactions are queued in front; exactly when it throws, and how far it got by then |
| ChainDatabase.ChainDatabase.PopTo | libraries/chain/db_block.cpp:147-149 | the loop ends exactly at the fork state, or where the fork database runs out of ancestors, and queues the popped transactions in chain order |
| ChainDatabase.ChainDatabase.ApplyBranch | libraries/chain/db_block.cpp:151-163 | applies the branch in order up to its first failing block, and says which that is |
| ChainDatabase.ChainDatabase.SwitchForks | libraries/chain/db_block.cpp:145-190 | exactly when it gets stuck, and where; otherwise success exactly when the whole branch applies to the fork state, and then the state is that; else state, head and blocks are those before |
| ChainDatabase.ChainDatabase.TryBranch | libraries/chain/db_block.cpp:151-190 | at the fork point: switched exactly if the whole branch applies, else rolled back exactly if the old head has a live ancestor for every block that did |
| ChainDatabase.ChainDatabase.GoBack | libraries/chain/db_block.cpp:164-188 | the rollback ends in the old branch applied to the fork state, or stops, exactly when the old head lacks live ancestors, with that many blocks of the new branch left |
| ChainDatabase.ChainDatabase.DropFromForkDatabase | libraries/chain/db_block.cpp:167-172 | removes exactly the failed block and everything above it |
| ChainDatabase.ChainDatabase.CacheBlock | libraries/chain/db_block.cpp:133-136 | the push into the fork database, with its refusals |
| ChainDatabase.ChainDatabase.Extend | libraries/chain/db_block.cpp:195-204 | the block is applied on top of the chain, or leaves chain and fork database without a trace |
| ChainDatabase.ChainDatabase.Reorganize | libraries/chain/db_block.cpp:138-192 | the branches come from the fork database; the switch between them ends in full as specified; without branches nothing changes |
| ChainDatabase.ChainDatabase.PushBlock | libraries/chain/db_block.cpp:128-207 | each outcome with its full effect and its exact condition: a higher block is left unlinked if and only if its linked ancestry never meets the chain's; steady states stay steady unless the push is unlinked or stuck, and there it gets stuck if and only if only the pushed block fails and the parent of the fork is gone |
| ChainDatabase.PushIsAtomic | libraries/chain/db_block.cpp:128-207 | however a push ends, other than by extending, switching or getting stuck, state and chain are those before |
| ChainDatabase.SharedAncestryIsFound | libraries/chain/db_block.cpp:138-145 | while every cached block is linked to its cached parent, a higher block whose cached ancestry meets the chain's is never left unlinked |
| ForkDatabase.FetchBranchFrom | libraries/chain/fork_database.cpp:199-241 | two parent-linked chains with a shared parent and no higher pair that shares one; fails only if there is no such pair |
| ForkDatabase.MeetIffBranches | libraries/chain/fork_database.cpp:199-241 | there is an answer if and only if the two linked ancestries meet anywhere |
| ForkDatabase.BranchesUnique | libraries/chain/fork_database.cpp:199-241 | there is at most one such pair |
| ForkDatabase.ParentIsHighestCommonAncestor | libraries/chain/fork_database.cpp:199-241 | when neither block descends from the other, the shared parent is a common ancestor and no common ancestor is higher |
| ForkDatabase.HighestIffUnrelated | libraries/chain/fork_database.cpp:199-241 | no common ancestor is higher than the shared parent if and only if neither block descends from the other |
| ForkDatabase.AncestorCase | libraries/chain/fork_database.cpp:199-241 | when the second block is an ancestor of the first or equal to it, the branches meet at that block |
| ForkDatabase.MeetsBelowAncestor | libraries/chain/fork_database.cpp:199-241 | an instance with two blocks |
| TransactionDedup.AdmissionExact | libraries/chain/db_block.cpp:565-614 | a transaction is admitted if and only if it was never applied and, after the first block, neither has expired nor expires too far ahead |
| TransactionDedup.TxsExact | libraries/chain/db_block.cpp:476-533 | a list of transactions is applied if and only if each is in its window and new, also among those before it |
| TransactionDedup.BlockExact | libraries/chain/db_block.cpp:476-533 | a block is applied if and only if it is later than the head and its transactions are; then the head moves to it, otherwise nothing changes |
| TransactionDedup.BlockGuarded | libraries/chain/db_block.cpp:476-533 | a block is applied as a whole or not at all, and every applied transaction that could still pass the expiry test stays indexed |
| TransactionDedup.RunNeverRepeats | libraries/chain/db_block.cpp:476-533 | the same for every run of blocks |
| TransactionDedup.ChainNeverRepeats | libraries/chain/db_block.cpp:565-614 | from genesis, no transaction is applied twice, and each applied one that has not expired is still indexed |
| TransactionDedup.ExpiredEntryLingers | libraries/chain/db_update.cpp:160-168 | an instance: after two blocks an expired transaction is still indexed beside one that has not expired |
| TransactionDedup.ClearExpired | libraries/chain/db_update.cpp:160-168 | the loop, which looks at the latest expiration, leaves all entries or none: an expired entry is removed if and only if every entry has expired |
| TransactionDedup.TransactionIndex.PushBlock | libraries/chain/db_block.cpp:476-533 | the object follows the ledger, and a failing block leaves no trace |
| Irreversible.SortKeeps | libraries/chain/db_update.cpp:140-148 | sorting keeps the number of values at or above any bound |
| Irreversible.CandidateIsThreshold | libraries/chain/db_update.cpp:125-150 | the candidate was reached by the threshold share of the active witnesses, and it is the highest number that was |
| Irreversible.ReachedIffBelowCandidate | libraries/chain/db_update.cpp:136-150 | the candidate is at least v if and only if 55 percent of the active witnesses have confirmed v or later |
| Irreversible.SignExact | libraries/chain/db_update.cpp:102-158 | after a block the signer has confirmed it and nobody else anything new; above the old irreversible block exactly the numbers the share has reached are irreversible |
| Irreversible.SignStep | libraries/chain/db_update.cpp:102-158 | one block never lowers the irreversible block nor lifts it above the head, and lifts it only to a confirmed number |
| Irreversible.IrreversibleNeverGoesBack | libraries/chain/db_update.cpp:125-158 | the same over every run, with changing witnesses |
| Irreversible.UpdateLastIrreversible | libraries/chain/db_update.cpp:125-158 | the code's collect-select-compare moves to v or beyond, for v above the old irreversible block, if and only if 55 percent of the active witnesses have confirmed v |
| Irreversible.BlockRetains | libraries/chain/db_update.cpp:89-99 | after each block the undo stack still restores the state before every block above the irreversible one |
| Irreversible.RunRetains | libraries/chain/db_update.cpp:89-99 | over every append-only run the retained entries restore exactly the states before the blocks above the irreversible one |
| Irreversible.PopBack | libraries/chain/db_block.cpp:406-419 | popping n times leads to the state n blocks back and is never refused on the way |
| Irreversible.GenesisRunPopsBack | libraries/db/undo_database.cpp:40-43 | after any append-only run from genesis every block above the irreversible one can be popped, and popping n blocks gives the state before the n-th from the end |
| Market.FeeAtMost | libraries/chain/db_market.cpp:557-575 | the market fee never exceeds the amount |
| Market.FeeIs | libraries/chain/db_market.cpp:557-575 | no fee if none is charged; otherwise the percentage rounded down, or the maximum |
| Market.PayOutNet | libraries/chain/db_market.cpp:577-593 | paying out a trade adds exactly its amount to the holdings, fee included, and touches nothing else |
| Market.FillLimitFlow | libraries/chain/db_market.cpp:293-331 | a filled limit order gives what it pays and gets what it receives, of every asset; only that order changes, and its deferred fee is paid once |
| Market.FillLimitPays | libraries/chain/db_market.cpp:293-331 | per account and asset: the seller gets the proceeds less the fee, and the rest back exactly if it is culled; the deferred fee is the seller's; nobody else is paid |
| Market.FillCallFlow | libraries/chain/db_market.cpp:334-385 | a position gives collateral, what it receives is burnt, and total debt falls with the supply |
| Market.FillCallShape | libraries/chain/db_market.cpp:334-385 | the position is gone exactly when its debt is covered, and is otherwise smaller by what changed hands |
| Market.FillCallPays | libraries/chain/db_market.cpp:334-385 | per account and asset: the borrower gets the rest of the collateral exactly if the debt is covered; nobody else is paid |
| Market.FillSettleFlow | libraries/chain/db_market.cpp:387-411 | a settlement order gives what it pays, its owner gets what it receives, and it is gone exactly when empty |
| Market.FillSettlePays | libraries/chain/db_market.cpp:387-411 | per account and asset: the owner gets the proceeds less the fee; nobody else is paid |
| Market.CancelLimitNet | libraries/chain/db_market.cpp:111-133 | cancelling refunds everything the order held |
| Market.CancelLimitPays | libraries/chain/db_market.cpp:111-133 | per account and asset: the seller gets both refunds |
| Market.CancelSettleNet | libraries/chain/db_market.cpp:96-109 | cancelling a settlement refunds everything it held |
| Market.CancelSettlePays | libraries/chain/db_market.cpp:96-109 | per account and asset: the owner gets the refund |
| PriceIndex.BestExists | libraries/chain/include/graphene/chain/market_object.hpp:82-88 | every book has a best entry, by price and then id, under cross-multiplied comparison |
| PriceIndex.BestIsHighest | libraries/chain/include/graphene/chain/market_object.hpp:82-88 | the first entry has the highest price, and the lowest id among those |
| PriceIndex.AtLeastIsRatio | libraries/chain/protocol/asset.cpp:43-74 | the cross-multiplied comparison compares the ratios |
| PriceIndex.BeforeTransitive | libraries/chain/protocol/asset.cpp:43-74 | the order of the index is transitive |
| Matching.ExchangeIsAffordable | libraries/chain/db_market.cpp:214-252 | neither side pays more than it has, and one of them pays everything, whatever the rounding |
| Matching.ExchangedAtMakersPrice | libraries/chain/db_market.cpp:224-245 | the taker gives all it has exactly if the maker's offer is worth it, and the amounts differ from the maker's price by the rounding of one of them |
| Matching.ConversionsRoundDown | libraries/chain/protocol/asset.cpp:76-97 | conversions round down by less than one unit |
| Matching.LimitPricesAreKept | libraries/chain/db_market.cpp:224-245 | both sides get at least what they gave times their own limit price, rounded down |
| Matching.ExchangeConserves | libraries/chain/db_market.cpp:214-252 | a match leaves the net holdings of every asset as they were |
| Matching.MatchPays | libraries/chain/db_market.cpp:214-252 | what is left of both orders, and per account and asset: each seller gets what the other one gives, less the fee, and the maker's seller the rest of a culled order |
| Matching.FillLimitInv | libraries/chain/db_market.cpp:293-331 | filling keeps the book well formed and every unsettled asset's debt equal to its supply |
| Matching.FillCallInv | libraries/chain/db_market.cpp:334-385 | the same for positions |
| Exchange.SwanIsExact | libraries/chain/db_update.cpp:201-256 | comparing with the higher of feed and best bid is comparing with the feed and with every bid |
| Exchange.Exchange.Match | libraries/chain/db_market.cpp:214-257 | the orders left and every account's balances are those of the exchange at the maker's price, with both sellers and both amounts named; assets are conserved and the bits say which orders are gone |
| Exchange.Exchange.MatchBook | libraries/chain/db_market.cpp:177-188 | a sequence of matches, each with the best order on the other side that meets the limit, that ends with the order filled or nothing crossing it; every asset is conserved |
| Exchange.StepMeetsLimit | libraries/chain/db_market.cpp:166-188 | each of those matches is with an order that meets the limit and that no other one beats, and keeps the limit of the new order |
| Exchange.UncrossedMeans | libraries/chain/db_market.cpp:166-188 | an order stays only while every order on the other side asks for more than its limit |
| Exchange.Exchange.GloballySettle | libraries/chain/db_market.cpp:44-94 | every position in the asset is closed for its due or, if less, its collateral; each borrower gets the rest; the fund is the sum, the supply is restored, and nothing else changes |
| Exchange.Exchange.HighestPrice | libraries/chain/db_update.cpp:233-237 | the higher of the feed and the best bid |
| Exchange.Exchange.CheckForBlackSwan | libraries/chain/db_update.cpp:201-256 | an unsettled asset is settled, at the price of the front position, or the call throws, exactly when that position is worth no more than the feed and every bid; otherwise nothing changes |
| Exchange.Exchange.ExecuteCall | libraries/chain/db_market.cpp:501-540 | the smaller of debt and offer changes hands at the order's price; what is left of both, and who is paid what |
| Exchange.CallPays | libraries/chain/db_market.cpp:501-540 | per account and asset: the bid's seller gets the collateral paid, less the fee, and the rest of a culled order; the borrower what is left once the debt is covered |
| Exchange.Exchange.CallPositions | libraries/chain/db_market.cpp:459-541 | the loop in full: a sequence of calls, and how it ends: a black swan, no call due, or one that takes more than the collateral |
| Exchange.Exchange.CheckCallOrders | libraries/chain/db_market.cpp:425-543 | exactly which margin calls are made, in which order, and how it ends; every asset is conserved, no order is new or changes price, and it throws only when black swans are not allowed |
| Exchange.CallsAreDue | libraries/chain/db_market.cpp:459-487 | every call is of the position with the lowest call price, on the best bid at the squeeze price not passed yet, and both feed and bid call it |
| Exchange.NothingDueMeans | libraries/chain/db_market.cpp:459-487 | no call is due if and only if no position is left, or no such bid, or the front position is not called by the feed or not by the best bid |
| Exchange.SafePositionsStay | libraries/chain/db_market.cpp:425-543 | a position that the feed does not call stays untouched unless the asset is settled |
| Exchange.Exchange.ApplyOrder | libraries/chain/db_market.cpp:156-202 | margin calls in both assets, matching, margin calls again, culling: the book is exactly what these lead to; every asset is conserved, and an order that stays still asks for something and nothing crosses it |
| Exchange.Exchange.CullSmall | libraries/chain/db_market.cpp:135-154 | an order is cancelled exactly if it asks for nothing |
| Redemption.ShareIsCovered | libraries/chain/asset_evaluator.cpp:448-472 | the rounded share never exceeds the fund, and what is left still covers the rest of the supply |
| Redemption.FundNeverShort | libraries/chain/asset_evaluator.cpp:448-472 | a redemption succeeds if and only if the holder has the amount, so the fund check never fails; redeeming nothing fails only for an asset settled without supply |
| Redemption.RedeemConserves | libraries/chain/asset_evaluator.cpp:448-472 | a redemption conserves every asset |
| Redemption.RedeemPays | libraries/chain/asset_evaluator.cpp:448-472 | per account and asset: the holder pays the amount and gets its share of the fund, rounded down; nobody else is touched |
| Redemption.AlwaysSolvent | libraries/chain/asset_evaluator.cpp:448-472 | after any redemptions in any order the fund still covers the outstanding supply |
| Redemption.SettlementIsSolvent | libraries/chain/db_market.cpp:80-92 | a global settlement starts out solvent |
| Redemption.RoundingLoss | libraries/chain/asset_evaluator.cpp:448-472 | redeeming in n pieces never overdraws and leaves less than n units behind |
| ForceSettlement.CapIsStable | libraries/chain/asset_object.cpp:33-44 | the cap does not move while settlements burn supply |
| ForceSettlement.MaxVolumeIs | libraries/chain/asset_object.cpp:33-44 | the cap is the percentage of supply and settled volume, rounded down |
| ForceSettlement.LeastCollateralized | libraries/chain/include/graphene/chain/market_object.hpp:166-171 | the position matched next owes most for its collateral |
| ForceSettlement.SettlePriceIs | libraries/chain/db_update.cpp:384-390 | the order is worth its balance at the feed, less the offset, each rounded down |
| ForceSettlement.SomebodyOwes | libraries/chain/db_update.cpp:392-417 | while a settlement order is open there is a position to match it with |
| ForceSettlement.SettleMatchConserves | libraries/chain/db_market.cpp:260-291 | matching a position with a settlement order conserves every asset |
| ForceSettlement.SettleMatchPays | libraries/chain/db_market.cpp:260-291 | per account and asset: the owner gets what the position pays, less the fee, and the borrower what is left once the debt is covered |
| ForceSettlement.DealsPay | libraries/chain/db_update.cpp:392-417 | over all matches of an order: owner and borrowers get these gains in the backing asset; nobody else is paid |
| ForceSettlement.SettlesWhatFits | libraries/chain/db_update.cpp:392-417 | unless the order is refunded or throws, the smaller of its balance and the room under the cap is settled |
| ForceSettlement.Settlement.SettleOrder | libraries/chain/db_update.cpp:392-417 | exactly which matches are made: each with the least collateralized position, as large as order, debt and cap allow, at the price; a refund if and only if nothing is left of the order or that position is too thin |
| ForceSettlement.Settlement.SettleDue | libraries/chain/db_update.cpp:379-423 | a due order is settled at the feed less the offset, and the volume recorded |
| ForceSettlement.Settlement.Visit | libraries/chain/db_update.cpp:315-424 | exactly what becomes of an order: refunded if its asset is settled or has no feed, left if it is not due or capped, settled otherwise; and the measure falls |
| ForceSettlement.Settlement.ClearExpired | libraries/chain/db_update.cpp:288-425 | exactly which orders are visited, by asset and then date, and with what effect; the loop ends; every asset is conserved, settled volume stays within its cap, and each order left is not due or its asset is capped |
| Supply.CutsFit | libraries/chain/account_object.cpp:32-43 | cuts of at most a hundred percent together never exceed the amount |
| Supply.CutRoundsDown | libraries/chain/account_object.cpp:32-43 | a cut is the percentage of the amount, rounded down |
| Supply.SplitFee | libraries/chain/account_object.cpp:55-90 | the four shares add up to the fee |
| Supply.SplitIs | libraries/chain/account_object.cpp:55-90 | network and lifetime referrer get their percentages of the fee, the referrer his of what is left, the registrar the rest |
| Supply.ReferrerSettles | libraries/chain/account_object.cpp:58-62 | a referrer who is no member is replaced, for good, by the lifetime referrer |
| Supply.BudgetWithinReserve | libraries/chain/db_maint.cpp:203-257 | the budget stays within the reserve, and no reserve is out of reach |
| Supply.TotalBudgetIs | libraries/chain/db_maint.cpp:203-257 | rate times reserve times elapsed time, rounded up, or the whole reserve if that is less |
| Supply.LazyDepositPays | libraries/chain/db_balance.cpp:81-127 | exactly the owner is paid exactly the amount; a new balance is opened if and only if the given one does not fit |
| Supply.OpensIfUnfit | libraries/chain/db_balance.cpp:81-127 | a new purse is opened if and only if the given one has another owner, kind or period |
| Supply.DepositVests | libraries/chain/db_balance.cpp:95-127 | a deposit that has to vest brings no coin-seconds, any other its full period; what was earned stays |
| Supply.CashbackPays | libraries/chain/db_balance.cpp:129-164 | the account's later cashback goes to a balance of its own; the chain's accounts get nothing |
| Supply.PayOutPays | libraries/chain/account_object.cpp:55-90 | each account gets exactly its share, and network, vesting and burned parts make up the fee |
| Supply.CoreLedger.Credit | libraries/chain/db_balance.cpp:53-79 | one balance grows, the others stay |
| Supply.CoreLedger.Debit | libraries/chain/db_balance.cpp:53-79 | one balance falls, refused exactly if it is too small |
| Supply.CoreLedger.PayFee | libraries/chain/account_object.cpp:105-111 | the fee waits in the account its size decides; supply less holdings stays |
| Supply.CoreLedger.DepositCashback | libraries/chain/db_balance.cpp:129-164 | the account is paid; for the chain's own accounts the amount leaves the supply |
| Supply.CoreLedger.PayOutFees | libraries/chain/account_object.cpp:55-90 | every account gets its share, and the fee leaves the pending amounts without a trace |
| Supply.CoreLedger.ProcessFees | libraries/chain/account_object.cpp:51-103 | pending fees are paid out under the current policy and cleared; supply less holdings stays |
| Supply.CoreLedger.PaySigningWitness | libraries/chain/db_update.cpp:102-116 | the witness gets the pay or what is left of the budget; supply less holdings stays |
| Supply.CoreLedger.ProcessBudget | libraries/chain/db_maint.cpp:263-362 | supply less holdings stays, supply never passes its maximum, and after the third hard fork never rises |
| Supply.CoreLedger.SplitFba | libraries/chain/db_maint.cpp:422-500 | buyback account and issuer get their percentages, the rest leaves the supply; supply less holdings stays |
| Supply.CoreLedger.Migrate | libraries/chain/account_evaluator.cpp:349-377 | the balance leaves balance and supply alike |
| Vesting.UpdateTwice | libraries/chain/vesting_balance_object.cpp:90-109 | bringing the policy up to date in between changes nothing |
| Vesting.SplitsDoNotMatter | libraries/chain/vesting_balance_object.cpp:90-109 | the same for every split of the elapsed time |
| Vesting.LazyIsPerSecond | libraries/chain/vesting_balance_object.cpp:90-103 | lazy accrual is second-by-second accrual with the cap applied every second |
| Vesting.AllowedIsSafe | libraries/chain/vesting_balance_object.cpp:111-142 | an amount is allowed if and only if the claim period has begun and its coin-seconds are earned; then no assertion can fail |
| Vesting.CreatedAllows | libraries/chain/db_balance.cpp:108-124 | a new balance can be withdrawn at once unless it has to vest, and in any case after its period |
| Vesting.RunBalanced | libraries/chain/vesting_balance_object.cpp:207-232 | over every run, deposits are withdrawn or still there, and accrued and pre-vested coin-seconds have paid for withdrawals, are still earned, or were lost to the cap: exact equations |
| Vesting.WithdrawalsAreEarned | libraries/chain/vesting_balance_object.cpp:207-232 | the same from the creation of a balance |
| Vesting.VestingBalance.TryWithdraw | libraries/chain/vesting_balance_object.cpp:226-232 | succeeds exactly when allowed, and keeps earned coin-seconds below the cap |
| Vesting.VestingBalance.DepositAsVested | libraries/chain/vesting_balance_object.cpp:126-130 | the deposit brings its full coin-seconds and stays below the cap |
| Vesting.LinearNeverOverdrawn | libraries/chain/vesting_balance_object.cpp:37-68 | over every run of withdrawals the linear policy answers and never allows more than the balance |
| Vesting.VestedIs | libraries/chain/vesting_balance_object.cpp:37-68 | the vested part is the elapsed part of the original balance, rounded down |
| Vesting.AllowsWhatIsVested | libraries/chain/vesting_balance_object.cpp:37-68 | past the cliff, withdrawing all that is allowed leaves exactly what has not vested |
| Vesting.LinearDepositTripsAssertion | libraries/chain/vesting_balance_object.cpp:37-78 | after a deposit past the cliff the policy answers if and only if the deposit is no more than what was withdrawn |
| Vesting.LateDepositFails | libraries/chain/vesting_balance_object.cpp:37-78 | an instance where it does not |
| Schedule.SlotBrackets | libraries/chain/db_witness_schedule.cpp:72-78 | every time lies between its slot and the next one |
| Schedule.FirstSlotIs | libraries/chain/db_witness_schedule.cpp:42-70 | the first slot is the first multiple of the interval after the head block, or as many intervals later as maintenance skips |
| Schedule.SlotRoundTrip | libraries/chain/db_witness_schedule.cpp:42-78 | the slot at a slot's time is that slot |
| Schedule.Shuffle | libraries/chain/db_witness_schedule.cpp:86-119 | the in-place loop does exactly the swaps that the generator draws, and for every seed the result is a permutation |
| Schedule.RandomInstances | libraries/chain/db_witness_schedule.cpp:106-110 | instances: what the generator draws |
| Schedule.ScheduledIs | libraries/chain/db_witness_schedule.cpp:34-40 | absolute slots go round the shuffled witnesses from the first one on |
| Schedule.RoundRobin | libraries/chain/db_witness_schedule.cpp:34-40 | any n consecutive slots schedule each of n witnesses exactly once |
| Schedule.ScheduleContinues | libraries/chain/db_witness_schedule.cpp:34-40 | the schedule does not depend on when one looks |
| Schedule.NextMaintenanceIsLeast | libraries/chain/db_maint.cpp:703-728 | the next maintenance time lies in the future, by no more than one interval |
| Schedule.NextMaintenanceIs | libraries/chain/db_maint.cpp:703-728 | it is put off by whole intervals from when it was due, or after the first block from time zero |
| Schedule.NextMaintenanceStaysAligned | libraries/chain/db_maint.cpp:703-728 | it stays a multiple of the block interval |
| Schedule.PaidBlocksBound | libraries/chain/db_update.cpp:102-116 | how many blocks can come until maintenance |
| Schedule.FullScheduleIsPossible | libraries/chain/db_witness_schedule.cpp:42-78 | and that many do come when no slot is missed |
| Schedule.BlocksFitIff | libraries/chain/db_maint.cpp:273-288 | exactly when the budget is planned for enough blocks |
| Schedule.OneBlockTooMany | libraries/chain/db_maint.cpp:273-288 | an instance where it is not, and the last block gets nothing |
| Schedule.FullPay | libraries/chain/db_update.cpp:102-116 | the budget pays every planned block in full |
| Schedule.BudgetAfterIs | libraries/chain/db_update.cpp:102-116 | every payment is in full while the budget lasts, and the last one takes what is left |
| Schedule.NoBlockIsClipped | libraries/chain/db_maint.cpp:273-300 | with an aligned maintenance time every block until then is paid in full |
| BlockLog.BlockDatabase.Store | libraries/chain/block_database.cpp:77-95 | the content maps the block's number to it, other numbers keep theirs, and the file only grows |
| BlockLog.BlockDatabase.Remove | libraries/chain/block_database.cpp:97-114 | removes the number exactly if it still holds this block; unknown numbers throw |
| BlockLog.BlockDatabase.Contains | libraries/chain/block_database.cpp:116-130 | exactly the blocks stored and not removed |
| BlockLog.BlockDatabase.FetchOptional | libraries/chain/block_database.cpp:148-178 | the block with that id if it is there, nothing otherwise |
| BlockLog.BlockDatabase.FetchByNumber | libraries/chain/block_database.cpp:180-207 | the block with that number if it is there, nothing otherwise |
| BlockLog.BlockDatabase.LastBlock | libraries/chain/block_database.cpp:209-245 | the block with the highest number; nothing exactly if the log is empty |
| BlockLog.BlockDatabase.LastId | libraries/chain/block_database.cpp:247-279 | its id; nothing exactly if the log is empty |
| BlockLog.BlockDatabase.DropAfterGap | libraries/chain/db_management.cpp:72-88 | the loop ends having removed exactly the blocks above the gap, and counts them |
| BlockLog.BlockDatabase.Replay | libraries/chain/db_management.cpp:67-96 | replays the longest gapless run from block 1, and leaves exactly that in the log |
| Sync.NumbersIncrease | libraries/app/application.cpp:784-796 | the synopsis numbers increase strictly from the low block and stay within the range |
| Sync.NumbersAreFew | libraries/app/application.cpp:784-796 | there are at most floor(log2(range + 1)) + 1 of them |
| Sync.NumbersReachHigh | libraries/app/application.cpp:784-796 | without following blocks they end at the high block, and there are exactly that many |
| Sync.LastNonUndoableIsOnChain | libraries/chain/db_getter.cpp:95-98 | the subtraction stays on the chain if and only if there are no more undo entries than blocks |
| Sync.PendingSessionWraps | libraries/chain/db_getter.cpp:95-98 | an instance: one block and a pending session |
| Sync.GetSynopsis | libraries/app/application.cpp:683-800 | the ids at those numbers of the summarized chain, across a fork; none exactly if the fork left before the last block that cannot be undone, where the code throws, or if that number lies above the chain, where it reads out of bounds |
| Sync.GetBlockIds | libraries/app/application.cpp:554-599 | our chain without gaps from the found block on, and the exact number remaining; fails exactly if the search finds no shared block, or a lookup beyond the chain throws first |
| Sync.ReplyStartsAtHighestShared | libraries/app/application.cpp:554-599 | for every pair of chains there is a reply exactly when a synopsis block is shared and none in it is known beyond our chain, and it starts at a shared one that no other shared one exceeds |
| Sync.SynopsisIsAnswered | libraries/app/application.cpp:554-599 | a synopsis is answered exactly when the chains agree up to its first block and none of its blocks is known beyond our chain |
| Sync.LongerForkIsNotAnswered | libraries/app/application.cpp:538-543 | an instance: the first block is shared, the second is known and above the chain |
| Sponge.LastBlock | libraries/utilities/SHA3.cpp:171-175 | the three XORs of the code absorb exactly the padded last block, also when both padding bytes coincide |
| Sponge.XorIs | libraries/utilities/SHA3.cpp:133-146 | the sum of bytes is without carry, on every bit |
| Sponge.XorIn | libraries/utilities/SHA3.cpp:133-146 | XORs the block into the front of the state |
| Sponge.SetOut | libraries/utilities/SHA3.cpp:139-147 | copies the front of the state and leaves the rest of the output |
| Sponge.AbsorbFullBlocks | libraries/utilities/SHA3.cpp:152-170 | what is left to absorb is the padded rest of the message |
| Sponge.SqueezeOut | libraries/utilities/SHA3.cpp:178-180 | fills the whole output as section 4 of FIPS 202 squeezes it |
| Sponge.Hash | libraries/utilities/SHA3.cpp:161-183 | for every input, output length and rate, the plain sponge over the padded message; a rate of a whole state or more is refused |
| Keccak.TableIsWalk | libraries/utilities/SHA3.cpp:70-74 | the lane table is the walk of section 3.2.2 of FIPS 202, one step ahead |
| Keccak.BitsAre | libraries/utilities/SHA3.cpp:99-120 | the sums and products of lanes, on every bit |
| Keccak.RolRotates | libraries/utilities/SHA3.cpp:84 | every rotation that occurs puts the bits that fall out back in at the other end |
| Keccak.OffsetRow | libraries/utilities/SHA3.cpp:65-69 | the rotations are the triangular numbers of section 3.2.2 |
| Keccak.ConstantIs | libraries/utilities/SHA3.cpp:75-81 | the round constants are what the shift register of section 3.2.5 gives |
| Keccak.ThetaInPlace | libraries/utilities/SHA3.cpp:99-106 | theta of section 3.2.1 |
| Keccak.RhoPiInPlace | libraries/utilities/SHA3.cpp:107-113 | one pass that carries a single lane computes pi after rho, sections 3.2.2 and 3.2.3 |
| Keccak.ChiInPlace | libraries/utilities/SHA3.cpp:114-120 | chi of section 3.2.4 |
| Keccak.Permute | libraries/utilities/SHA3.cpp:93-124 | the 24 rounds of section 3.3 |
| KeccakBytes.BytesRoundTrip | libraries/utilities/SHA3.cpp:93-95 | the bytes seen as lanes and seen as bytes again are the bytes |
| KeccakBytes.LanesRoundTrip | libraries/utilities/SHA3.cpp:93-95 | the lanes seen as bytes and seen as lanes again are the lanes |
| KeccakBytes.LittleEndian | libraries/utilities/SHA3.cpp:93-95 | an instance: the first byte of a lane is the least significant |
| KeccakBytes.Permute | libraries/utilities/SHA3.cpp:93-124 | the in-place rounds, on the bytes the hash works on |
| Sha3.SqueezePrefix | libraries/utilities/SHA3.cpp:178-180 | a shorter output is the front of a longer one |
| Sha3.HashFixed | libraries/utilities/SHA3.cpp:191-207 | more than the digest is refused, less is its front |
| Sha3.Shake | libraries/utilities/SHA3.cpp:186-190 | output of any length |
| Sha3.Keccak256 | libraries/utilities/SHA3.cpp:226-235 | the 256-bit digest into a buffer of exactly its size |

## Left out

- Machine widths: amounts and products are mathematical integers, so the 64-bit products at
  `libraries/chain/vesting_balance_object.cpp:129` and `libraries/chain/db_balance.cpp:120` and the throw on more than the maximum
  share supply in price multiplication are not modelled.
- Signatures, authorities, hash collisions, networking, wallet, plugins, clocks and logging: ids are values with a block number.
- Multi-index uniqueness and iteration order while undo restores objects: the store is a map from id to value.
- The fork database of a node that restarts on an existing chain (`start_block`), blocks flagged as invalid and the
  unlinked index, which the code never fills. A weak parent pointer is alive while that very item is in the index or
  held by the branches of a running switch; an item that is kept alive only by being the head counts as gone.
- Sync.GetSynopsis: for a first number above the chain the code reads out of bounds, which has no defined result; the
  model returns none.
- ChainDatabase.ChainDatabase.PushBlock: assumes the undo history that the blocks need; `CalmIsAmple` gives it in plain terms.
- Block log contents after a failed fork switch, and `fetch_block_id`, which ignores removal.
- Re-pushing of popped and pending transactions, block production, and proposals beyond the sessions they open.
- Objects changed while recording is off, other than before it is switched on for the first time.
- Applying a block during replay: `Replay` returns the list of blocks that are applied.
- `total_core_in_orders`, vote tallies, committee and worker updates, member and referrer indexes, amount formatting.
- How feeds are aggregated, and settlement of prediction markets beyond the guards in the market code.
- Feed updates and new positions: the market starts from a well-formed book and follows the matching code from there.
