# A verified model of a blockchain indexer

The indexer is a set of jobs. Each job reads a height range `(start, end]` from a shared checkpoint table, reads the
events of that range, folds them into a ledger table, and commits the ledger and its checkpoint together. This project
models those jobs in Dafny and proves what they promise for every input and every run: no job overtakes a job it
depends on, every height is handled once, loading only the touched rows and cutting the log into batches changes
nothing, totals are conserved, and regrouping the events of a batch by kind is harmless.

## How the project is laid out

| module | subject |
|---|---|
| `Checkpoint`, `Startup` | the checkpoint table and the two-phase protocol of all jobs, freely interleaved, with aborts; the protocol while the table fills |
| `Pipeline`, `PipelineExamples` | the protocol and the ERC20 contract, activity and balance tables in one state machine; two runs that miss an activity |
| `Erc20`, `Erc20Reindex` | ERC20 balances and supply; a reindex and the balance job after it |
| `Cw20`, `Cw20Queue`, `Cw20History` | CW20 holders and supply; the queue of update jobs; the chain of history jobs |
| `Cw721`, `Delegators` | token ownership; delegations |
| `FeegrantEvents`, `Feegrant`, `FeegrantPages`, `FeegrantChain` | events to rows, rows to grants, runs of the update job, and all of it end to end |
| `IbcTao`, `Ics20`, `Denom` | IBC clients, connections, channels, packets and denominations |
| `TraceTree` | internal calls of an EVM trace and their printed addresses |
| `CrawlBlock`, `Partition` | crash-prone block crawling, and partitions of the block table |
| `Wrappers`, `Tables`, `SortBy`, `HeightLog`, `Strings` | results, sums over tables, stable sorting, cutting logs by height, splitting and numerals |

Objects whose methods change fields in the source are classes here, tables are fields the methods reassign, and each
such method is proved equal to a function of the old state. The theorems are about those functions. A transaction is a
method that leaves the tables unchanged when it reports an error.

The main theorems, hardest first:

- `Checkpoint.RunSafe`, `RunMonotone`, `HandledExactlyOnce`, `DependenciesHandledFirst`: safety of every interleaving;
  `CatchesUp`: progress.
- `Pipeline.LedgerFollowsCheckpoint`, `BalanceRightIff`, `FollowedBalancesRight`, `BalanceJobNeverThrows`: at every moment
  of every run each activity is applied or left out exactly once, the balances are one fold over what was applied, and
  when they are the whole flow up to the checkpoint; `Startup.StartSafe` for runs from an empty table.
- `Erc20Reindex.JobGetsThroughIff`, `JobAfterReindexRightIff`: exactly when the balance job survives a reindex and is right.
- `Cw20Queue.HoldersAfterAnyRun`, `DrainedRightIff`, `CarefulRunRightIff`: what each holder has after jobs were retried
  out of turn, given up or lost, and exactly when that is right; `Cw20.SupplyAlwaysSum`.
- `FeegrantPages.PagesRightIff`, `GrantEndsAs`, `FeegrantChain.GrantsFollowEvents`, `FeegrantEvents.RangesDoNotMatter`: fee grants from
  the events of the chain to the grant table.
- `Erc20.BatchesRefineFold`, `GapConserved`, `NeverWasUpdated`; `Cw721.ChainOfCustody`.
- `Ics20.BatchesReflectLog`, `RowsByFields`, `IbcTao.BatchesAreStrict`, `BatchesStore`: regrouping by kind, and what each
  row then says.
- `TraceTree.OneRowPerCall`, `AddressesDistinct`; `CrawlBlock.StoredHeightsContiguous`;
  `Partition.EveryHeightInOnePartition`; `Delegators.CountsAlwaysMatch`, `RowsFollowCommits`.

## Where a property fails

These natural properties do not hold of the code as it stands. Each is kept as the code has it, with an input at which it
fails and the exact condition under which it holds.

- A job may overtake a dependency whose checkpoint row does not exist yet, because the minimum is taken over existing
  rows only, and an unguarded job may then fall back (`Checkpoint.MissingRowCounterexample`). So the activity job may pass
  events before their contract is listed, and the join drops them (`PipelineExamples.MissingRowLosesActivity`). Condition:
  `Checkpoint.ReadSafeIffReady`, `ReadCommitSafeIff`.
- The balance job passes the activities of contracts that are untracked when it reads their range
  (`PipelineExamples.UntrackedIsMissed`). Condition: `Pipeline.BalanceRightIff`.
- A CW20 update job that is retried after a younger one has run is dropped by the height guard for every address both
  touch (`Cw20Queue.OutOfTurnExample`), a job given up after its last attempt is missing (`GiveUpExample`), and so is one
  that a stopped process never created (`CrashExample`). Condition: `DrainedRightIff`, `LostHarmlessIff`,
  `CarefulRunRightIff`.
- The rebuilt history of a CW20 contract and the live job can both insert an event (`Cw20History.InsertedTwiceExample`),
  or neither. Condition: `OnceEachIff`, which depends on what had been crawled when the chain of history jobs ended
  (`CrawledLateExample`); a history job that dies loses the rest for good (`StoppedChainLoses`).
- A fee-grant page that holds the end of a grant before a use of it leaves the use unattributed and unspent
  (`FeegrantPages.LatePageExample`), because the query has no order. Condition: `PagesRightIff`.
- After a reindex above the balance job's checkpoint, that job either counts the activities in between twice, and those
  above the activity job's checkpoint three times (`Erc20Reindex.ReindexAheadExample`), or throws on every retry and stops
  (`StuckExample`). Condition: `JobGetsThroughIff`, `JobAfterReindexRightIff`.
- A delegator message whose transaction is rolled back is skipped for good once a later message of its page commits
  (`Delegators.SkippedExample`, `SkippedForGood`). Condition: `RolledBackRetriedIff`.
- A block answered without a header leaves a gap that no later run fills (`CrawlBlock.MissingHeaderExample`,
  `MissingHeaderStays`). Condition: `CompletedRunContiguousIff`.
- A batch that closes a channel only before it opens it ends with that channel closed (`IbcTao.EarlyCloseExample`).
  Condition: `GroupedIsStrictIff`.

## Assumptions

- Database transactions are atomic and each job has one running instance.
- Account ids and addresses are in bijection (`Erc20.Joined`), and keys written `a_b` in the source are pairs here,
  except in trace addresses, partition names and denominations, where the strings are the point.
- Amounts are unbounded integers, as in the source, which computes them with big integers.
- The two queries of `getCheckpoint` are one step. The job's own row is written by that job alone, so the moment at
  which it is read does not matter.
- Remote answers (RPC, LCD, decoded events) are inputs.

## Model

| member | source | states |
|---|---|---|
| `Checkpoint.LowestRow` | src/models/block_checkpoint.ts:39-43 | the result is below every dependency row that exists, is one of them, and is missing exactly when none exists |
| `Checkpoint.BlockCheckpoint.FirstByHeight` | src/models/block_checkpoint.ts:39-43 | ordering the rows by height and taking the first yields the lowest existing row |
| `Checkpoint.BlockCheckpoint.GetCheckpoint` | src/models/block_checkpoint.ts:32-68 | start is the job's row or the start block; with some dependency row, end is the lower of start plus the step and the lowest dependency row: at or below both and equal to one of them, without a step the lowest row; it is 0 without any dependency row |
| `Checkpoint.ReadSafeIffReady` | src/models/block_checkpoint.ts:45-67 | in a reachable state a read yields a forward range at or below all dependencies if and only if the job is ready: all dependency rows exist, or the job still lands on the start block |
| `Checkpoint.ReadKeepsInv` | src/services/evm/crawl_evm_event.service.ts:31-53 | reading a range when ready, or skipping it by the guard, keeps the protocol invariant, also for jobs without a guard |
| `Checkpoint.CommitKeepsInv` | src/services/evm/erc20.service.ts:84-120 | committing a range read earlier keeps the invariant although other jobs moved in between |
| `Checkpoint.GrowKeepsInv` | src/services/crawl-block/crawl_block.service.ts:129-141 | the block crawler moving its own row keeps the invariant of all readers |
| `Checkpoint.AbortKeepsInv` | src/services/cw20/cw20.service.ts:74-92 | a job that fails between its two phases leaves a state from which it can retry |
| `Checkpoint.RunSafe` | src/models/block_checkpoint.ts:32-68 | in every interleaving of reads, commits, aborts and growth no job is ahead of a dependency, pending ranges are safe, and committed ranges run from the start block to the checkpoint |
| `Checkpoint.RunMonotone` | src/models/block_checkpoint.ts:32-68 | between any two moments of a run no checkpoint decreases and no row disappears |
| `Checkpoint.HandledExactlyOnce` | src/models/block_checkpoint.ts:45-67 | the committed ranges of a job contain each height of (start block, checkpoint] exactly once and nothing else |
| `Checkpoint.DependenciesHandledFirst` | src/models/block_checkpoint.ts:22-31 | a height a job has handled was already handled by every job it waits for |
| `Checkpoint.RoundEnds` | src/models/block_checkpoint.ts:45-67 | whatever its guard, a job that reads a forward range and commits stands at the end of that range, and has a row unless its guard skips an empty range |
| `Checkpoint.RangeReaches` | src/models/block_checkpoint.ts:45-67 | in a reachable state with all dependency rows there, a read goes one step up or to the lowest dependency, whichever is nearer |
| `Checkpoint.CatchesUp` | src/models/block_checkpoint.ts:32-68 | progress: from any moment of any run at which all dependencies have rows, n rounds of reading and committing, under any guard, take the job exactly n steps up, or to its lowest dependency when that is nearer |
| `Checkpoint.ArrivedIff` | src/models/block_checkpoint.ts:61-65 | so the job has arrived if and only if the rounds are at least the distance over the step, rounded up |
| `Checkpoint.ReadCommitSafeIff` | src/services/evm/crawl_evm_event.service.ts:31-53 | reading and committing keeps the invariant if and only if the guard skips or the job is ready |
| `Checkpoint.MissingRowCounterexample` | src/models/block_checkpoint.ts:37-44 | with one of two dependency rows missing there is a run in which an unguarded job overtakes the missing job, and one in which its checkpoint later decreases |
| `Startup.ReadBelow` | src/models/block_checkpoint.ts:45-67 | with all dependency rows there or none, a read ends at or below every dependency, and goes back only before the job has a row |
| `Startup.StartSafe` | src/models/block_checkpoint.ts:32-68 | in every run from an empty table whose reads find all dependency rows or none, no row is above the row of a dependency, a job with a missing dependency stands at 0, and the committed ranges leave no gap |
| `Startup.RowsRise` | src/models/block_checkpoint.ts:45-67 | once a job has a row its checkpoint never decreases, though its first commit may lie below the start block |
| `Startup.StartedHandlesOnce` | src/models/block_checkpoint.ts:45-67 | every height above the start block and up to the checkpoint is handled exactly once, whatever the start was like |
| `Startup.ResetExample` | src/models/block_checkpoint.ts:51-56 | an unguarded job that runs before its dependency commits checkpoint 0 below a positive start block |
| `Pipeline.ReadKeeps` | src/services/evm/erc20_handler.ts:168-289 | a read by any ready job divides its range, by the join with the contract table or by the track filter, into what it takes and what it leaves, each activity once |
| `Pipeline.ContractsAppear` | src/services/evm/erc20.service.ts:36-76 | committing a range of the contract job writes and tracks exactly the rows of the contracts created in it, at their creation height and with the supply the chain answers |
| `Pipeline.MissingContractsAppear` | src/services/evm/erc20.service.ts:260-301 | an activity of an unknown contract brings in its row at height -1 and untracked; known rows stay |
| `Pipeline.RowsStay` | src/services/evm/erc20.service.ts:84-120 | what the balance job has read for a range is everything the activity table will ever hold in it, because new rows lie above the activity checkpoint |
| `Pipeline.BatchCommits` | src/services/evm/erc20.service.ts:128-177 | committing a batch goes on with the fold of the balances and with the supplies |
| `Pipeline.LedgerFollowsCheckpoint` | src/services/evm/erc20.service.ts:36-177 | at every moment of every run of ready jobs, with aborts, retries, requeries, tracking and untracking, each activity up to the activity checkpoint is in the table or was left out by the join, each activity in the table up to the balance checkpoint was applied or left out as untracked, the balances are one fold over what was applied, and each supply is what was inserted plus what was minted since |
| `Pipeline.BalancesFollowCheckpoint` | src/services/evm/erc20.service.ts:128-177 | each balance is its first value plus inflow minus outflow up to the checkpoint, less what was dropped or read while untracked |
| `Pipeline.BalanceRightIff` | src/services/evm/erc20_handler.ts:275-282 | a balance is its first value plus the whole flow up to the checkpoint if and only if what was missed moves nothing net for it |
| `Pipeline.FollowedBalancesRight` | src/services/evm/erc20.service.ts:36-177 | a contract that is tracked from the start, or listed by the contract job before its first activity, and never untracked has all balances right at every moment |
| `Pipeline.BalanceJobNeverThrows` | src/services/evm/erc20_handler.ts:91-166 | in runs of ready jobs over rows that start old, the balance job's commit always goes through, whatever is tracked or untracked between read and commit |
| `PipelineExamples.MissingRowLosesActivity` | src/services/evm/erc20.service.ts:82-92 | with the contract job's row missing, the unguarded activity job passes a mint that the join drops; the contract is tracked later and the balance stays 0 instead of 5 |
| `PipelineExamples.UntrackedIsMissed` | src/services/evm/erc20.service.ts:260-300 | in a run of ready jobs a contract first seen in a Cosmos event is listed untracked, so the balance job passes its mint, which is in the table, and the balance is 0 instead of 5 |
| `Erc20.Erc20Handler.HandlerErc20Transfer` | src/services/evm/erc20_handler.ts:91-166 | one activity moves its amount between the two ends, or in and out of the supply at the zero address, or reports the stale or missing row |
| `Erc20.Erc20Handler.Process` | src/services/evm/erc20_handler.ts:77-89 | the loop over activities is the fold, with the fold's first error |
| `Erc20.Database.UpdateErc20AccountsBalance` | src/services/evm/erc20_handler.ts:291-344 | loading the touched rows, processing and upserting leaves the tables of the fold over the whole ledger, or nothing changed and the fold's error |
| `Erc20.Database.ReindexContract` | src/services/evm/erc20_reindex.ts:26-121 | one transaction clears and rebuilds the contract, balance and activity rows of one contract and tracks it again; with an unknown contract or a missing account it changes no row and leaves the contract untracked |
| `Erc20.SliceHasTouched` | src/services/evm/erc20_handler.ts:296-317 | the load query returns every row that the batch can touch |
| `Erc20.BatchRefinesFold` | src/services/evm/erc20_handler.ts:291-344 | the sliced batch equals the fold over the whole ledger, in results and in errors; untouched rows are kept |
| `Erc20.BatchesRefineFold` | src/services/evm/erc20.service.ts:128-177 | any cut of the log into batches ends as one fold over the whole log |
| `Erc20.CheckpointsDoNotMatter` | src/services/evm/erc20.service.ts:128-177 | any two sequences of checkpoints over the same heights give the same ledger |
| `Erc20.BalanceIsNetFlow` | src/services/evm/erc20_handler.ts:91-166 | each balance is its old value plus inflow minus outflow, stamped with its last touching height; untouched rows are identical |
| `Erc20.ApplyAllOkIff` | src/services/evm/erc20_handler.ts:91-166 | a list of activities in any order goes through if and only if all contracts are known, no stored row is newer, and each balance is touched in height order |
| `Erc20.NeverWasUpdated` | src/services/evm/erc20_handler.ts:91-166 | on a height-ordered log over older rows the stale-row errors never fire; the fold succeeds if and only if every moving activity's contract is known |
| `Erc20.GapConserved` | src/services/evm/erc20_handler.ts:91-166 | supply minus sum of balances of every contract with a supply is unchanged by any sequence of transfers, mints, burns, deposits, withdrawals and self-transfers |
| `Erc20.ContractStamp` | src/services/evm/erc20_handler.ts:118-165 | a contract row with a supply carries the height of its last mint or burn, and one without is never written |
| `Erc20.ReindexSupplyIsSumOfBalances` | src/services/evm/erc20_reindex.ts:40-119 | a reindex over the contract's ordered log succeeds, makes supply equal to the sum of balances, each balance equal to its net flow, and the height that of the last mint or burn, or of the reindex without one |
| `Erc20.ReindexOkIff` | src/services/evm/erc20_reindex.ts:26-121 | over the contract's ordered log a reindex goes through if and only if the contract is known and every activity has both accounts |
| `Erc20.ReindexTouchesOneContract` | src/services/evm/erc20_reindex.ts:40-119 | a reindex changes no balance and no contract row of another contract |
| `Erc20Reindex.JobAfterReindex` | src/services/evm/erc20_reindex.ts:84-119 | if the balance job gets through, every balance of the contract counts the activities between its checkpoint and the activity checkpoint twice, and those from there to the reindexed height three times |
| `Erc20Reindex.JobGetsThroughIff` | src/services/evm/erc20_handler.ts:100-150 | the job gets through if and only if the other contracts let it and no activity that it reads again is overtaken by a later activity of the same balance in the rebuilt log |
| `Erc20Reindex.StuckForGood` | src/services/evm/erc20.service.ts:128-177 | once it cannot get through, it cannot with any later end either |
| `Erc20Reindex.JobAfterReindexRightIff` | src/services/evm/erc20.service.ts:128-177 | it gets through and leaves all balances of the contract right if and only if that holds and what is counted again moves nothing net |
| `Erc20Reindex.QuietReindexRight` | src/services/evm/erc20.service.ts:128-177 | with no activity of the contract between the balance checkpoint and the reindexed height, the job gets through whenever the other contracts let it, and is right |
| `Erc20Reindex.ReindexAheadExample` | src/services/evm/erc20_reindex.ts:84-119 | a mint of 5 at height 4, a reindex at 5 and a balance job at 3: the holder ends with 10, or with 15 if the activity job inserts the mint again |
| `Erc20Reindex.StuckExample` | src/services/evm/erc20_handler.ts:138-145 | two mints to one holder at heights 4 and 5 under the same reindex: the balance job throws, now and on every retry |
| `Erc20.BuildSplits` | src/services/evm/erc20_handler.ts:168-248 | building the activities of two adjacent ranges separately gives the list of building them together |
| `Erc20.BuildOrderedByHeight` | src/services/evm/erc20_handler.ts:168-248 | the merged list keeps every activity and is ordered by height when transaction ids grow with height |
| `Cw20.Cw20Tables.ApplyEvent` | src/services/cw20/cw20_update_by_contract.service.ts:146-182 | one event debits and credits its ends under the height guard and keeps the running total, or reports a missing amount or sender |
| `Cw20.Cw20Tables.UpdateBalanceHolders` | src/services/cw20/cw20_update_by_contract.service.ts:105-200 | working on the mentioned holders in id order leaves the holder table of the fold over all holders, whose effect `JobMovesFlow` gives |
| `Cw20.Cw20Tables.JobHandle` | src/services/cw20/cw20_update_by_contract.service.ts:36-67 | one job updates holders, supply and height together by the fold whose effect `JobMovesFlow` gives, or changes nothing |
| `Cw20.JobMovesFlow` | src/services/cw20/cw20_update_by_contract.service.ts:36-200 | a job over a range that no row is newer than, its events in any order: each holder changes by its inflow minus outflow over mints, burns, transfers, sends and the three `from` actions and carries the height of its last move, the supply changes by minted minus burned, the contract row carries the end of the range |
| `Cw20.ApplyInFull` | src/services/cw20/cw20_update_by_contract.service.ts:112-182 | the same for one event and one address |
| `Cw20.SliceRefinesFold` | src/services/cw20/cw20_update_by_contract.service.ts:105-200 | loading only mentioned holders and writing them back equals the fold over the whole table, errors included |
| `Cw20.AddedIsChangeOfTotal` | src/services/cw20/cw20_update_by_contract.service.ts:146-182 | the accumulated amount is exactly the change of the sum of holders, also when the guard drops one side |
| `Cw20.SnapshotSupplyIsSum` | src/services/cw20/cw20.service.ts:136-161 | the supply inserted at instantiation is the sum of the inserted holders |
| `Cw20.SnapshotRow` | src/services/cw20/cw20_reindexing.service.ts:133-137 | each snapshot row holds the amount and the height the chain answered for its address |
| `Cw20.MinHeightIsMin` | src/services/cw20/cw20_reindexing.service.ts:94-95 | the contract row's height is the smallest of those heights, 0 without answers |
| `Cw20.SupplyAlwaysSum` | src/services/cw20/cw20_reindexing.service.ts:100-142 | in every state reachable by instantiation, reindexing and update jobs over any pages, failed jobs included, supply equals the sum of holders |
| `Cw20.PageInLogOrder` | src/services/cw20/cw20_update_by_contract.service.ts:110-125 | whatever order the query returns, a job works through its events in log order |
| `Cw20.GuardDropsNothing` | src/services/cw20/cw20_update_by_contract.service.ts:146-182 | on an ordered log that starts after all rows, the height guard skips no event |
| `Cw20.JobSucceedsIff` | src/services/cw20/cw20_update_by_contract.service.ts:146-182 | a job, in turn or not, succeeds if and only if every moving event has an amount and a sender that is known in time |
| `Cw20Queue.HandleKeepsInv` | src/services/cw20/cw20_update_by_contract.service.ts:77-103 | asking for a job from the larger of checkpoint and last height, or crashing before it is created, keeps all ranges disjoint and every event after the snapshot in exactly one of done, queued and lost |
| `Cw20Queue.JobOnAddress` | src/services/cw20/cw20_update_by_contract.service.ts:146-182 | a job lands on an address in full if no younger job that touches the address ran before it, and not at all otherwise |
| `Cw20Queue.AttemptSucceedsIff` | src/services/cw20/cw20_update_by_contract.service.ts:36-67 | an attempt at any queued job, in turn or not, succeeds if and only if its amounts are there and its senders are known in time |
| `Cw20Queue.AttemptKeepsInv` | src/services/cw20/cw20_update_by_contract.service.ts:36-67 | an attempt at any queued job keeps the account of what each holder has; a failed attempt changes nothing |
| `Cw20Queue.GiveUpKeepsInv` | src/services/cw20/cw20_update_by_contract.service.ts:94-99 | dropping a job after its last attempt moves its range from queued to lost |
| `Cw20Queue.RunKeepsInv` | src/services/cw20/cw20.service.ts:60-110 | over any interleaving of handling, crashing, attempting in any order and giving up, each holder is its snapshot plus what landed |
| `Cw20Queue.HoldersAfterAnyRun` | src/services/cw20/cw20_update_by_contract.service.ts:36-103 | after any run each amount is the snapshot plus the flow up to the checkpoint, less what is queued, what was lost, and what ran too late for the address |
| `Cw20Queue.DrainedRightIff` | src/services/cw20/cw20_update_by_contract.service.ts:146-182 | with a drained queue a holder has the amount the log dictates if and only if what was lost or too late moves nothing net for it |
| `Cw20Queue.OutOfTurnHarmless` | src/services/cw20/cw20_update_by_contract.service.ts:94-99 | jobs that run out of turn do no harm while they share no address with an older job that runs after them |
| `Cw20Queue.LostHarmlessIff` | src/services/cw20/cw20.service.ts:74-110 | with a drained queue every holder is right if and only if the ranges lost to a crash or given up move nothing net |
| `Cw20Queue.CarefulRunRightIff` | src/services/cw20/cw20_update_by_contract.service.ts:87-100 | if no job is attempted before an older queued one with which it shares an address, the holders are right up to what was lost, and all right if and only if that moves nothing net |
| `Cw20Queue.OldestFirstFolds` | src/services/cw20/cw20_update_by_contract.service.ts:36-103 | if jobs run oldest first and none is lost, the holder table is at every moment the fold over exactly the events in (snapshot height, applied height] |
| `Cw20Queue.HoldersAreSnapshotPlusFlow` | src/services/cw20/cw20_update_by_contract.service.ts:146-182 | then each holder is its snapshot plus inflow minus outflow over exactly those events |
| `Cw20Queue.OutOfTurnExample` | src/services/cw20/cw20_update_by_contract.service.ts:87-100 | two mints of 5 and 7 in two jobs, the younger first: the holder ends with 7 instead of 12 though nothing was lost |
| `Cw20Queue.CrashExample` | src/services/cw20/cw20.service.ts:86-109 | a mint whose job is never created because the process stops after the checkpoint commit: the holder has 0 instead of 5 |
| `Cw20Queue.GiveUpExample` | src/services/cw20/cw20_update_by_contract.service.ts:94-99 | the same mint when its job is given up |
| `Cw20History.Cw20Activities.ReindexHistory` | src/services/cw20/cw20.service.ts:319-354 | one history job appends at most one page of what has been crawled and queues its successor at the page's last id, or ends the chain when nothing is left |
| `Cw20History.PageSteps` | src/services/cw20/cw20.service.ts:319-354 | the page after the previous id is the next stretch of what has been crawled, and its last id leads to the stretch after it |
| `Cw20History.RunHolds` | src/services/cw20/cw20.service.ts:319-354 | over any interleaving of the crawler, the live job and history jobs that may die, the rows are a beginning of the history and everything the live job passed; if the chain ended by itself, the beginning is all that had been crawled then |
| `Cw20History.InsertedHowOften` | src/services/cw20/cw20.service.ts:170-216 | an event is inserted once for lying in the history crawled when the chain ended and once for lying above the live checkpoint at the reindex: twice, once or never |
| `Cw20History.OnceEachIff` | src/services/cw20/cw20_reindexing.service.ts:157-170 | every event up to the checkpoint is inserted exactly once if and only if no event lies between the live checkpoint at the reindex and the end of the history or what was crawled of it when the chain ended, whichever is lower |
| `Cw20History.NeverMoreOften` | src/services/cw20/cw20.service.ts:319-354 | whatever dies, no event is inserted more often than that, and none that the live job passed is missing |
| `Cw20History.InsertedTwiceExample` | src/services/cw20/cw20_reindexing.service.ts:157-170 | a history rebuilt up to height 3 while the live job stood at 1 holds the event at height 2 twice |
| `Cw20History.CrawledLateExample` | src/services/cw20/cw20.service.ts:319-354 | an event crawled only after the chain of history jobs found nothing left is inserted once although the two ranges overlap |
| `Cw20History.StoppedChainLoses` | src/services/cw20/cw20.service.ts:331-346 | once a history job has died, the events it had not reached below the live checkpoint are never inserted |
| `FeegrantEvents.GetCreateFeegrantInfo` | src/services/feegrant/feegrant.service.ts:223-258 | the loop reads the spend limit of the allowance inside all wrappers, and fails when there is none |
| `FeegrantEvents.WrappersDoNotMatter` | src/services/feegrant/feegrant.service.ts:231-239 | however often an allowance is wrapped, the limit is the same |
| `FeegrantEvents.WrappedLimit` | src/services/feegrant/feegrant.service.ts:231-247 | inside any number of wrappers a basic or periodic allowance yields its first listed amount, or none if it lists nothing, and a wrapper around nothing fails |
| `FeegrantEvents.CollectUses` | src/services/feegrant/feegrant.service.ts:111-138 | the first pass lists the uses in order, or fails at the first without a fee |
| `FeegrantEvents.GetFeegrantEvents` | src/services/feegrant/feegrant.service.ts:84-221 | the two loops compute the two-pass function, with its error |
| `FeegrantEvents.FirstPassIs` | src/services/feegrant/feegrant.service.ts:111-138 | the first pass succeeds if and only if every use has a fee |
| `FeegrantEvents.SecondPassIs` | src/services/feegrant/feegrant.service.ts:139-216 | the second pass turns, for each transaction and pair, as many of its first uses into use-ups as the chain ended, and fails exactly when an allowance or a use is missing |
| `FeegrantEvents.TwoPassesAre` | src/services/feegrant/feegrant.service.ts:84-221 | the result exists if and only if fees, allowances and uses are all present, and is then given row by row |
| `FeegrantEvents.RangesJoin` | src/services/feegrant/feegrant.service.ts:54-82 | two ranges handled one after the other insert what both at once would, and fail in the same cases |
| `FeegrantEvents.RangesDoNotMatter` | src/services/feegrant/feegrant.service.ts:54-82 | any cut of the chain into ranges inserts the same grants and history rows in the same order |
| `FeegrantEvents.RowsByMeaning` | src/services/feegrant/feegrant.service.ts:111-220 | one row per event, a use being a use-up exactly when its grant ended in the same transaction, ordered by transaction |
| `FeegrantEvents.FetchOrderDoesNotMatter` | src/services/feegrant/feegrant.service.ts:87-109 | the unordered query may return the events in any order: the same rows are inserted |
| `FeegrantEvents.InsertedRowsHaveFees` | src/services/feegrant/feegrant.service.ts:111-138 | every use or use-up row inserted carries an amount, so the update job's fee error cannot fire on it |
| `Feegrant.LatestIsLatest` | src/services/feegrant/update_feegrant.service.ts:64-80 | no other matching grant of the pair lies between the chosen one and the event |
| `Feegrant.AttributeIsLatest` | src/services/feegrant/update_feegrant.service.ts:64-80 | choosing among the grants available at page load picks the latest grant if and only if that one is still available |
| `Feegrant.UpdateFeegrantJob.Accumulate` | src/services/feegrant/update_feegrant.service.ts:108-190 | every grant gets the sum of the amounts of its uses and use-ups, and the status used up or revoked by the action of its last ending row, available without one; it fails exactly when a use or use-up has no amount |
| `Feegrant.UpdateFeegrantJob.UpdateFeegrant` | src/services/feegrant/update_feegrant.service.ts:108-231 | every grant's limit falls by its uses; its last ending row makes it used up or revoked, by the action, with that row's transaction; a grant without one keeps its status; or nothing is changed |
| `Feegrant.UpdateFeegrantJob.JobHandler` | src/services/feegrant/update_feegrant.service.ts:39-106 | one page attributes its rows, marks them processed with their grants, and acts on the grants, in one transaction that changes nothing when it throws |
| `Feegrant.PageUpdateIsFold` | src/services/feegrant/update_feegrant.service.ts:39-231 | a well-formed page acts as its events would one at a time, which `ActedRow` reads off the rows |
| `Feegrant.ActedRow` | src/services/feegrant/update_feegrant.service.ts:108-231 | the effect of a page on each grant, read off the rows: limit, status and revoking transaction |
| `FeegrantPages.PagesRightIff` | src/services/feegrant/update_feegrant.service.ts:39-106 | over any run whose pages are any unprocessed rows in any order, every row is attributed to its latest grant if and only if no row is in a later page than the end of its grant, and then every grant is what the processed rows in history order make of it |
| `FeegrantPages.ReferenceRow` | src/services/feegrant/update_feegrant.service.ts:108-231 | rows taken one at a time, in any history: each grant has its first limit less the amounts of its uses and use-ups, and the status and transaction of its last ending row |
| `FeegrantPages.GrantEndsAs` | src/services/feegrant/update_feegrant.service.ts:39-231 | after timely pages of a well-formed history a grant is used up by a transaction exactly when that transaction's use-up was attributed to it, revoked exactly when its revoke was, available otherwise, and its limit is the first limit less what was attributed to it |
| `FeegrantPages.ProcessedOnce` | src/services/feegrant/update_feegrant.service.ts:40-44 | each row is processed at most once, and is marked processed exactly when a page held it |
| `FeegrantPages.FoldIgnoresOrder` | src/services/feegrant/update_feegrant.service.ts:108-231 | if no grant is ended twice, the rows may act in any order |
| `FeegrantPages.AllPagesRight` | src/services/feegrant/update_feegrant.service.ts:39-231 | with all rows processed by timely pages, the grants and attributions are those of the whole history in order |
| `FeegrantPages.PagesDoNotMatter` | src/services/feegrant/update_feegrant.service.ts:39-106 | two timely ways of cutting the same history into pages agree in every table |
| `FeegrantPages.LatePageExample` | src/services/feegrant/update_feegrant.service.ts:40-44 | a page with a revocation before the page with a use of 4 leaves the use unattributed and 10 of 10, where history order leaves 6 |
| `FeegrantChain.ChainGivesWellFormed` | src/services/feegrant/feegrant.service.ts:84-221 | if each action of a pair has its own transaction and an ended grant is renewed before the pair acts again, the inserted rows form a well-formed history |
| `FeegrantChain.RunLoads` | src/services/feegrant/feegrant.service.ts:54-82 | ranges handled in chain order, with update pages in between, load exactly the rows of all events at once, and new grants always come after all rows inserted before |
| `FeegrantChain.GrantsFollowEvents` | src/services/feegrant/feegrant.service.ts:54-82 | from the events of such a chain, handled range by range and updated page by page, attributions are right if and only if the pages are timely, and then the grants are what the rows in chain order make of them |
| `IbcTao.CrawlIbcTao.HandleNewIbcClient` | src/services/ibc/crawl_ibc_tao.service.ts:99-120 | the client events of a batch become rows in order, or a duplicate is reported |
| `IbcTao.CrawlIbcTao.HandleNewIbcConnection` | src/services/ibc/crawl_ibc_tao.service.ts:122-165 | connection events become rows that point to their client's row, or a missing parent is reported |
| `IbcTao.CrawlIbcTao.HandleNewIbcChannel` | src/services/ibc/crawl_ibc_tao.service.ts:167-215 | channel events become open rows that point to their connection's row, or a missing parent is reported |
| `IbcTao.CrawlIbcTao.HandleCloseIbcChannel` | src/services/ibc/crawl_ibc_tao.service.ts:217-240 | close events mark the named channels, or a missing id is reported |
| `IbcTao.CrawlIbcTao.HandleBatch` | src/services/ibc/crawl_ibc_tao.service.ts:43-96 | one transaction runs the four groups in turn, or changes nothing |
| `IbcTao.ClientsAgree` | src/services/ibc/crawl_ibc_tao.service.ts:99-120 | the grouped client pass gives the client table of strict event order |
| `IbcTao.ConnectionsAgree` | src/services/ibc/crawl_ibc_tao.service.ts:122-165 | so does the connection pass, whose parent lookups then never miss |
| `IbcTao.StrictChannels` | src/services/ibc/crawl_ibc_tao.service.ts:167-240 | in strict order an old channel is closed if the batch closes it, a new one if it is closed after it was opened |
| `IbcTao.GroupedIsStrictIff` | src/services/ibc/crawl_ibc_tao.service.ts:60-96 | whenever strict order succeeds grouping succeeds with the same clients and connections, and the channels agree if and only if every channel both opened and closed in the batch is closed after its opening |
| `IbcTao.EarlyCloseExample` | src/services/ibc/crawl_ibc_tao.service.ts:60-96 | a batch that closes a channel id and then opens it ends open in strict order and closed when grouped |
| `IbcTao.BatchesAreStrict` | src/services/ibc/crawl_ibc_tao.service.ts:60-96 | for a well-formed handshake log, any batching with grouping by kind gives the tables of strict event order |
| `IbcTao.StrictStores` | src/services/ibc/crawl_ibc_tao.service.ts:99-240 | in strict order every event has its row, with its attributes, in its turn; a connection's row points to the row whose client id the event names, a channel's to the row of the connection it names, and is open unless closed later |
| `IbcTao.BatchesStore` | src/services/ibc/crawl_ibc_tao.service.ts:60-240 | the same of any batching of a well-formed log, and there are no other new rows |
| `IbcTao.StrictOkIff` | src/services/ibc/crawl_ibc_tao.service.ts:99-240 | strict order succeeds if and only if every new id is new where it stands, every named parent is there before, and every close names a channel |
| `Denom.DenomRoundTrip` | src/services/ibc/crawl_ibc_ics20.service.ts:266-277 | for every denom and every port and channel without a slash, prefixing and then stripping returns the denom |
| `Denom.StripThenPrefixIff` | src/services/ibc/crawl_ibc_ics20.service.ts:266-277 | stripping and then prefixing returns the denom if and only if its first two of at least three parts are that port and channel |
| `Ics20.CrawlIbcIcs20.UpdateOriginSendStatus` | src/services/ibc/crawl_ibc_ics20.service.ts:279-305 | changing the keyed rows in place and writing them back is marking one message after the other, which `MarkedFields` and `MarkOthers` spell out, or reports a key without a send row |
| `Ics20.CrawlIbcIcs20.HandleIcs20Send` | src/services/ibc/crawl_ibc_ics20.service.ts:54-95 | every send message adds one ongoing row, in order |
| `Ics20.CrawlIbcIcs20.HandleIcs20Recv` | src/services/ibc/crawl_ibc_ics20.service.ts:97-175 | every receive adds one finished row with its parsed denom, or a missing packet event or denom is reported |
| `Ics20.CrawlIbcIcs20.HandleIcs20Ack` | src/services/ibc/crawl_ibc_ics20.service.ts:177-236 | successful, then failed acknowledgements mark their sends, with the effect `RowsByFields` gives, or a malformed one is reported first |
| `Ics20.CrawlIbcIcs20.HandleBatch` | src/services/ibc/crawl_ibc_ics20.service.ts:40-51 | one transaction runs send, receive, acknowledgement and timeout in turn, or changes nothing |
| `Ics20.MarkRowByRow` | src/services/ibc/crawl_ibc_ics20.service.ts:279-305 | with one send per key, marking touches exactly the send rows of the listed keys and no receive row; what it writes is in `MarkedFields` |
| `Ics20.MarkedFields` | src/services/ibc/crawl_ibc_ics20.service.ts:295-298 | for any keys, listed any number of times: the last send row of a listed key gets the status and the time of the last message with that key, and keeps its other fields |
| `Ics20.MarkOthers` | src/services/ibc/crawl_ibc_ics20.service.ts:295-303 | every other row is left as it is |
| `Ics20.MarkOkIff` | src/services/ibc/crawl_ibc_ics20.service.ts:284-298 | marking goes through if and only if each listed key has a send row |
| `Ics20.PassesAreAfter` | src/services/ibc/crawl_ibc_ics20.service.ts:177-264 | the three passes finish each send by its own acknowledgement or timeout and by nothing else, and no lookup misses |
| `Ics20.AfterTwice` | src/services/ibc/crawl_ibc_ics20.service.ts:279-305 | seeing two stretches of a well-formed log in turn equals seeing them together |
| `Ics20.BatchKeepsReflects` | src/services/ibc/crawl_ibc_ics20.service.ts:40-51 | a batch succeeds and keeps the table a reflection of the log so far |
| `Ics20.BatchesReflectLog` | src/services/ibc/crawl_ibc_ics20.service.ts:40-305 | for every well-formed packet log and batching no lookup misses, the send rows are those of the log's sends, finished by its acknowledgements and timeouts, and the receive rows are the log's receives, untouched even where keys coincide |
| `Ics20.RowsByFields` | src/services/ibc/crawl_ibc_ics20.service.ts:40-305 | the same field by field: the n-th send row has key, channel, data, denom and start time of the n-th send; it is acknowledged with success or error exactly when the log has such an acknowledgement of its key, timed out exactly when it has a timeout, with that message's time, and ongoing without a finish time otherwise; the n-th receive row has status, channel, parsed denom and finish time of the n-th receive; there are no other rows |
| `Ics20.BatchOkIff` | src/services/ibc/crawl_ibc_ics20.service.ts:40-305 | any batch on any table goes through if and only if each receive has its packet event and denom, each acknowledgement its two events, and each acknowledged or timed-out key a send row in the table or a send in the batch |
| `Cw721.Cw721Handler.HandlerCw721Transfer` | src/services/cw721/cw721_handler.ts:38-76 | a transfer records the previous owner and, unless stale, moves the token |
| `Cw721.Cw721Handler.HandlerCw721Mint` | src/services/cw721/cw721_handler.ts:78-126 | a mint creates or revives the token and keeps row ids |
| `Cw721.Cw721Handler.HandlerCw721Burn` | src/services/cw721/cw721_handler.ts:128-158 | a burn records the last owner and, unless stale, marks the token, or fails without a token |
| `Cw721.Cw721Handler.Process` | src/services/cw721/cw721_handler.ts:184-199 | the loop over messages is the fold, and existing tokens keep their ids |
| `Cw721.Cw721Store.Upsert` | src/services/cw721/cw721.service.ts:218-244 | writing the tokens back in any order keeps one row per token and every old row's id |
| `Cw721.Cw721Store.HandleBatch` | src/services/cw721/cw721.service.ts:173-244 | loading the mentioned tokens, processing and merging equals the fold over the whole table; every activity is linked to the row of its own token, for good; nothing changes when it throws |
| `Cw721.LinkedIffStored` | src/services/cw721/cw721.service.ts:218-244 | an activity is linked if and only if its token has a row, and then to that row |
| `Cw721.BatchesRefineFold` | src/services/cw721/cw721.service.ts:173-244 | any cut of the log into batches gives the tokens and activities of one fold |
| `Cw721.FoldHasCustody` | src/services/cw721/cw721_handler.ts:38-199 | the fold over a well-formed log succeeds and has the custody property |
| `Cw721.ChainOfCustody` | src/services/cw721/cw721_handler.ts:38-199 | for any batching, each transfer or burn activity's `from` is the `to` of the token's previous mint or transfer, and stored owner, height and burned flag are what the log says |
| `Cw721.ProcessSucceedsIff` | src/services/cw721/cw721_handler.ts:128-199 | any list of messages, in any order of heights, goes through if and only if every burn of a tracked contract finds its token in the table or minted before |
| `Cw721.HeightMonotone` | src/services/cw721/cw721_handler.ts:38-158 | the stored height of a token never decreases, on any log |
| `Cw721.UntrackedIgnored` | src/services/cw721/cw721_handler.ts:38-182 | messages of untracked contracts change nothing |
| `Delegators.CrawlDelegators.HandleReDelegateTxMsg` | src/services/crawl-validator/crawl_delegators.service.ts:284-363 | a redelegation takes from the source and credits the destination as read before any write |
| `Delegators.DelegateKeepsInv` | src/services/crawl-validator/crawl_delegators.service.ts:237-282 | a delegation of a positive amount keeps every count equal to the number of rows and every amount positive |
| `Delegators.UndelegateKeepsInv` | src/services/crawl-validator/crawl_delegators.service.ts:365-410 | so does an undelegation, whether it lowers a row or deletes it |
| `Delegators.UndelegateStake` | src/services/crawl-validator/crawl_delegators.service.ts:365-410 | an undelegation lowers the delegator's stake by the amount, or by what the row holds if that is less |
| `Delegators.CrawlDelegators.HandleJob` | src/services/crawl-validator/crawl_delegators.service.ts:416-482 | each message commits its effect, which `CommitRow` and `SelfRedelegateRow` give, and its id together, or is rolled back alone |
| `Delegators.CommittedIff` | src/services/crawl-validator/crawl_delegators.service.ts:437-480 | a message of a page is committed if and only if its own transaction did not fail |
| `Delegators.RedelegateKeepsInv` | src/services/crawl-validator/crawl_delegators.service.ts:284-363 | counts match rows and amounts stay positive, also when both ends are the same validator |
| `Delegators.CommitsAscend` | src/services/crawl-validator/crawl_delegators.service.ts:416-482 | over any runs and rollbacks the committed ids strictly ascend, so none commits twice, and the tables are the fold of exactly those messages |
| `Delegators.CountsAlwaysMatch` | src/services/crawl-validator/crawl_delegators.service.ts:237-410 | in every reachable state each validator's count is its number of rows and every amount is positive |
| `Delegators.DelegateStake` | src/services/crawl-validator/crawl_delegators.service.ts:237-282 | a delegation to a known validator, or the cancelling of an undelegation, raises one row and the delegator's stake by the amount, on top of what was there, and no other row |
| `Delegators.CommitRow` | src/services/crawl-validator/crawl_delegators.service.ts:237-410 | one message on any row: held plus delegated, redelegated in and cancelled, minus undelegated and redelegated out, plus what the row falls short |
| `Delegators.SelfRedelegateRow` | src/services/crawl-validator/crawl_delegators.service.ts:284-363 | a redelegation of a validator to itself adds the amount, or loses the row when it holds no more than that |
| `Delegators.RowIsFlow` | src/services/crawl-validator/crawl_delegators.service.ts:237-410 | over any list of messages each row is its first amount plus inflow minus outflow plus what it fell short of |
| `Delegators.RowsFollowCommits` | src/services/crawl-validator/crawl_delegators.service.ts:416-482 | over any runs and rollbacks each row is its first amount plus delegated minus undelegated over exactly the committed messages, if and only if none of them asks the row for more than it holds |
| `Delegators.RolledBackRetriedIff` | src/services/crawl-validator/crawl_delegators.service.ts:429-480 | a rolled-back message is fetched again if and only if no later message of its page commits |
| `Delegators.SkippedForGood` | src/services/crawl-validator/crawl_delegators.service.ts:429-480 | a message rolled back before a later one of its page commits is in no page of any later run |
| `Delegators.SkippedExample` | src/services/crawl-validator/crawl_delegators.service.ts:429-480 | of two delegations of 5 and 7 the first is rolled back: the row holds 7, and no later run fetches the first |
| `Delegators.RedelegateStake` | src/services/crawl-validator/crawl_delegators.service.ts:284-363 | between two different known validators stake never falls, and is preserved if and only if the source row holds the amount |
| `Delegators.RedelegateOthers` | src/services/crawl-validator/crawl_delegators.service.ts:284-363 | no other delegator is touched |
| `Delegators.RedelegationsConserveStake` | src/services/crawl-validator/crawl_delegators.service.ts:284-363 | runs of covered redelegations conserve every delegator's stake |
| `TraceTree.BuildEvmInternalTx` | src/services/evm/evm_crawl_internal_tx.service.ts:118-146 | the recursion terminates and pushes the rows of the calls after those already there |
| `TraceTree.OneRowPerCall` | src/services/evm/evm_crawl_internal_tx.service.ts:114-150 | the rows are the non-root calls, each once, in pre-order |
| `TraceTree.AddressDecodes` | src/services/evm/evm_crawl_internal_tx.service.ts:125-131 | with plain type names the printed address decodes to the call's child-index path |
| `TraceTree.PrintedInjective` | src/services/evm/evm_crawl_internal_tx.service.ts:125-131 | different paths print differently, whatever the type names |
| `TraceTree.AddressesDistinct` | src/services/evm/evm_crawl_internal_tx.service.ts:114-150 | no two rows of a trace share an address |
| `CrawlBlock.CrawlBlockService.InitEnv` | src/services/crawl-block/crawl_block.service.ts:54-79 | the current block is the stored checkpoint, created at the start block when missing |
| `CrawlBlock.CrawlBlockService.CollectNew` | src/services/crawl-block/crawl_block.service.ts:149-176 | exactly the answered heights not stored yet are collected, in order |
| `CrawlBlock.CrawlBlockService.HandleListBlock` | src/services/crawl-block/crawl_block.service.ts:149-258 | the new blocks are appended, and the checkpoint is left alone |
| `CrawlBlock.CrawlBlockService.JobHandler` | src/services/crawl-block/crawl_block.service.ts:81-147 | a completed run inserts its range and moves the checkpoint one call up, to the network's height when that is nearer, and never down |
| `CrawlBlock.NewBlocksContiguous` | src/services/crawl-block/crawl_block.service.ts:149-176 | over a contiguous store, a range of answers adds exactly the missing heights on top |
| `CrawlBlock.RunKeepsInv` | src/services/crawl-block/crawl_block.service.ts:81-147 | a run keeps the store contiguous and within one call of the checkpoint, wherever the process dies |
| `CrawlBlock.CompletedRunContiguousIff` | src/services/crawl-block/crawl_block.service.ts:149-253 | a completed run keeps it if and only if every new height was answered with a header |
| `CrawlBlock.MissingHeaderStays` | src/services/crawl-block/crawl_block.service.ts:129-176 | a new height that a completed run got no header for is stored by no later run |
| `CrawlBlock.MissingHeaderExample` | src/services/crawl-block/crawl_block.service.ts:149-176 | blocks 1 and 3 are stored, block 2 came without a header, and no later run stores it |
| `CrawlBlock.StoredHeightsContiguous` | src/services/crawl-block/crawl_block.service.ts:54-253 | while every new height is answered with a header, after any runs and crashes the stored heights are one stretch above the start block ending between the checkpoint and one call past it, none stored twice |
| `CrawlBlock.RunsReach` | src/services/crawl-block/crawl_block.service.ts:81-147 | while the network stands still, n completed runs move the checkpoint exactly n calls up, or to the network's height when that is nearer |
| `Partition.CreateBlockPartition.CreatePartitionName` | src/services/job/create_block_partition.service.ts:24-70 | the proposed partition is new and lies above the latest height; nothing is proposed when none is due |
| `Partition.CreateBlockPartition.JobCreateBlockPartition` | src/services/job/create_block_partition.service.ts:110-125 | the job returns true exactly when it changed the partitions |
| `Partition.CreatesIff` | src/services/job/create_block_partition.service.ts:24-70 | with the latest height in partition k, the job adds partition k + 1 under its name and nothing else, exactly when the height is in the second half and that name is not taken |
| `Partition.NameInjective` | src/services/job/create_block_partition.service.ts:45-65 | different bounds have different names, so the existence check by name is one by bounds |
| `Partition.CoveredIff` | src/services/job/create_block_partition.service.ts:37-50 | among aligned partitions a height is in exactly one if and only if the partition of its quotient exists |
| `Partition.AlignedDisjoint` | src/services/job/create_block_partition.service.ts:24-70 | two created partitions never share a height |
| `Partition.GrowthCovered` | src/services/job/create_block_partition.service.ts:24-70 | from a ready state, growth by at most half a step stays inside existing partitions |
| `Partition.HalfStepIsExact` | src/services/job/create_block_partition.service.ts:29-35 | growth by g is always covered if and only if 2g is at most the step |
| `Partition.MigratedTable` | migrations/20240201093654_partition-block-table.ts:46-71 | the table the migration leaves, with the old blocks in its first partition, satisfies the invariant |
| `Partition.EveryHeightInOnePartition` | src/services/job/create_block_partition.service.ts:24-125 | while the top grows by at most half a step between jobs, every height ever inserted is in exactly one partition, then and ever after |

## Left out

- RPC, LCD, viem and S3 access, protobuf and ABI decoding, hashing: their results are inputs.
- Message queues, scheduling and the API: kept only as "a job may run at any time, one instance per job". A job that has committed is not delivered again, and giving up is allowed at any time rather than after five failed attempts.
- Accounts that the balance job has created before it reads again: taken as the precondition that activities join with accounts. A contract of a Cosmos event that has no EVM contract row makes the activity job throw, which is not modelled.
- A reindex is a step of `Erc20Reindex` and not of the `Pipeline` runs, which have its untracking and tracking only.
- CW20 snapshots whose balances were read at different heights: the code does not reconstruct exact balances there.
- CW20 contracts that are not tracked: the queue and the history are those of one tracked contract.
- CW721 instantiation and history replay: the set of tracked contracts is fixed during a run.
- `erc721_handler.ts`: the same fold as CW721 with fewer cases.
- `handle_vote_tx.service.ts`: its inserts are not awaited, so their order depends on the driver.
- Validator, proposal and denom-trace crawling, `updateAllValidator`, statistics, media and contract verification: copies of remote state or I/O.
- Partitions of the event, transaction and message tables: the same arithmetic as for blocks.
- Fields that are copied unread (denominations, memos, times of grants, gas, input data) are one opaque field or are dropped.
- A fee-grant event whose transaction holds several uses of one pair: `FeegrantEvents.FetchOrderDoesNotMatter` takes one use per transaction and pair, as the chain has it.
- `Erc20.BuildSplits`, `Erc20.BuildOrderedByHeight` are about the merge and sort of `buildErc20Activities`; decoding single events into activities is left out.
- `Delegators.RowsFollowCommits`, `Delegators.CommitRow`, `Delegators.RowIsFlow`: take no redelegation of a validator to itself, which the chain rejects; `Delegators.SelfRedelegateRow` says what the code does with one.
- `FeegrantPages.GrantEndsAs`: is about grants inserted as available, as the feegrant job inserts them.
