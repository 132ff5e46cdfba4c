# Verification of the iotex-analyser indexer

The indexer turns an ordered chain of blocks into database tables. Each plugin is driven by its own
runner, which fetches blocks, hands them over in batches, and keeps the height the plugin has reached in
an in-memory cache and in a database row. This project models that machinery and the plugins whose tables
are more than row-by-row copies of the chain, and proves what their design relies on. `dafny verify
dfyconfig.toml` checks all of it.

Tables are maps or sequences, a database transaction is an all-or-nothing step, and a delivery to a plugin
ends in one of three ways (`Deliveries.Delivery`): it commits, it fails before the new height is cached, or
it fails after that and rolls back, leaving the cached height ahead of the stored one.

| file | subject |
|---|---|
| `HolderModel`, `HolderRefinement`, `HolderPlugin`, `HolderLaws`, `HolderEvents` | the batched ERC-721/ERC-1155 holder engine: it refines one-at-a-time application, exactly when no burned token is issued again within a batch; its rows are the owners and balances that the chain's logs give; supply is conserved; it agrees with the older per-event plugin |
| `Indexer`, `IndexerBounds`, `IndexerFaults`, `Runner` | runners, cached and committed heights, as interleaved steps and as the imperative loop: when batches are consecutive, when no plugin passes what it depends on, when what it reads is committed, and runs in which these fail; adaptive batch size |
| `DelegateSnapshot`, `DelegateGate`, `DelegateMap`, `DelegateRun` | the delegate job: which height it works at, when its gate opens, and that the gate makes separate reads one snapshot; stakes and weights are tallied; the tally of a run is that of the chain |
| `AccountIncome`, `IncomeLaws`, `BlockSupply` | buffered deltas and a running balance against recomputation from the full history |
| `AccountVote`, `SelfStake` | append-only ledgers whose latest row is the state |
| `VerifyDb`, `AccountMeta`, `BlockActionPartition`, `Reward` | multiset matching, a sound cache, range replacement with partitions, reward totals |
| `Sums`, `Wrappers`, `Deliveries` | sums over sets and sequences, `Option`, delivery outcomes |

Several properties do not hold of the code on all inputs. For each of these there is a lemma saying exactly
when it holds and, where that is not plain from it, one that exhibits the failure:

- A batch of holder operations equals one-at-a-time application on every table exactly when each token it burns
  is left burned at its end (`HolderRefinement.BatchRefinesFoldExactly`): a later mint or transfer of the token
  cancels the pending delete. On one table it does exactly when, beyond that, every stored row of such a token was
  sent away by its holder at some point or is held again at the end (`BatchAgreesWhenSettled`, for lists in which
  no token is both an ERC-721 and an ERC-1155 one). A token burned by its owner and minted to someone else in one
  batch keeps both rows (`BurnThenMintBreaks`). Errors agree on every input.
- A token's supply is mints less burns exactly when every debit found a row (`HolderLaws.BatchesConserveExactly`): a
  debit of a missing row is dropped, but the matching credit is not (`RowlessTransferMints`); so a holder's row is what the
  logs brought it less what they took exactly when its own debits found a row (`HolderEvents.RowIsNetOfLogs`).
- Committed batches are consecutive exactly when every commit is made by a runner that entered its loop with
  cached and stored heights equal (`Indexer.ConsecutiveExactlyWhenAligned`). A transaction that fails after its
  height was cached breaks this (`IndexerFaults.RollbackSkipsABlock`), and so does a dependant that caches a height
  it read before the other plugin moved on (`StaleStoreRepeatsABlock`).
- No plugin's height or tip passes a plugin it depends on exactly as long as each restart finds no committed height
  above a dependency's, and each height cached late is one to which its plugin may be lowered: no other dependant is
  above it, or goes by more (`IndexerBounds.NeverPassesDependencies`). A rollback and a restart can break it
  (`IndexerFaults.RestartLeavesDependantAhead`).
- Runners go by cached heights. The tip of each is committed by all dependencies it has read exactly as long as each
  read and each late store of a height lowers the tip to what is committed, and no commit goes back below a tip
  (`IndexerBounds.AlwaysCoveredExactly`, over all runs). Then every block sent to a plugin is committed by its
  dependencies (`SentBlocksAreCommitted`); otherwise a dependant may commit first, with no fault at all
  (`IndexerFaults.DependantCommitsFirst`).
- The delegate job's reads are one snapshot of its tables wherever no batch goes back, so in every interleaving
  without a stale height (`DelegateSnapshot.ReadsAreOneSnapshot`, `UnstaleMovesAscend`). A read is the chain's exactly
  when no block up to its height that the plugin lost had rows (`ReadIsChainExactly`). The missing-amount error cannot
  happen in any interleaving (`NoBucketAmountMissing`).
- Supply rows are right exactly when, at every block that is stored, what failed attempts left in the running
  balances and what queries missed, because account_income had not committed it, come to nothing
  (`BlockSupply.Plugin.Index`). One uncommitted read shows for good (`UncommittedReadShows`). A query failure past
  the first block of a batch leaves rows behind that make the next transaction fail (`LeftoversFailTheNext`).
- The tables of account_income are complete up to the cached height exactly when the blocks lost to rollbacks after
  caching had no rows (`AccountIncome.Plugin.Index`); that of account_meta, exactly when for each account the first
  delivery that names it committed and its lookup was answered (`AccountMeta.Plugin.Index`).
- An event keeps the vote ledger balanced exactly when a create, restake or unstake comes from the bucket's latest
  holder or the bucket is empty (`AccountVote.BalancedExactly`; over runs, `AlwaysBalancedExactly`). After a forward
  the former holder's restake breaks it (`RestakeAfterForwardBreaks`). A governance cancel never gives a forwarded
  bucket back (`CancelStake`).
- Recording an unstake is right exactly when no two candidates share the bucket (`SelfStake.UnstakeExactly`;
  over runs, `AlwaysTrueExactly`; `SharedUnstakeBreaks`). An unstake delivered again changes nothing exactly when the
  bucket has no holder on record at the end of its block, or the row it would write is there (`UnstakeAgainExactly`).
- A batch size reached by successes alone returns to its maximum exactly when it is there or is at least 5
  (`Runner.RecoversExactly`).

Where code and intent part ways, the model follows the code: the check of a block's actions accepts its block
row when the hash or the number of actions agrees (`cmd/tools/verify_db.go:172-173` joins the two mismatches with
"and"), and the loop over logs, unlike the others, has no count check, so logs missing from the database pass.

## Model

| member | source | states |
|---|---|---|
| HolderRefinement.RunOverlay | plugins/erc1155_721_holder_v2/state.go:57-102 | after every prefix of a batch, the in-memory rows laid over the stored table (less rows deleted by key or of a burned token) read as the table of one-at-a-time application; both fail together |
| HolderRefinement.StepOverlay | plugins/erc1155_721_holder_v2/state.go:65-102 | each of the six operations keeps that reading, given that the rows an ERC-1155 operation touches were preloaded |
| HolderRefinement.PendingTokens | plugins/erc1155_721_holder_v2/state.go:68-82 | the pending token deletes at the end are the tokens whose last ERC-721 operation is a burn |
| HolderRefinement.BatchErrsExactly | plugins/erc1155_721_holder_v2/state.go:120-135 | for every table and list, the batch fails exactly when one-at-a-time application underflows |
| HolderRefinement.BatchRefinesFold | plugins/erc1155_721_holder_v2/state.go:52-111 | with no burned token issued again, the flushed table is the one-at-a-time table, for every starting table |
| HolderRefinement.ReissueBreaksBatch | plugins/erc1155_721_holder_v2/state.go:68-86 | otherwise, with the burned token held by any address that the list does not name, the batch keeps a row that one-at-a-time application deletes |
| HolderRefinement.BatchRefinesFoldExactly | plugins/erc1155_721_holder_v2/state.go:52-111 | for a list that leaves some address unnamed: batch and one-at-a-time application agree on all tables if and only if no burned token is issued again |
| HolderRefinement.BatchAgreesExactly | plugins/erc1155_721_holder_v2/state.go:104-110 | on a given table they agree if and only if no stored row of a burned token is left by all three of token deletes, key deletes and upserts |
| HolderRefinement.BatchAgreesWhenSettled | plugins/erc1155_721_holder_v2/state.go:65-110 | on a given table, for a list in which no token is both ERC-721 and ERC-1155: if and only if each stored row of a reissued token was sent away by its holder or is held at the end |
| HolderRefinement.BurnThenMintBreaks | plugins/erc1155_721_holder_v2/state.go:68-80 | a token burned by its owner and minted to another address in one batch: the results differ |
| HolderRefinement.SentAwayIsSettled | plugins/erc1155_721_holder_v2/state.go:81-89 | sent on before it is burned and minted again, the results agree although the token is reissued |
| HolderRefinement.CutsAreInvisible | plugins/erc1155_721_holder_v2/state.go:52-111 | any cutting of a list into such batches gives the one-at-a-time result, failures included |
| HolderRefinement.SplitAnywhere | plugins/erc1155_721_holder_v2/state.go:52-111 | splitting a list without reissue at any point gives the same table, or the same failure, as one batch |
| HolderPlugin.OpsOfAppend | plugins/erc1155_721_holder_v2/token.go:70-118 | the operations of two runs of blocks together are those of the first followed by those of the second; a bad log in either fails both |
| HolderPlugin.TransferMeaning | plugins/erc1155_721_holder_v2/token.go:206-239 | an ERC-1155 transfer, mints and burns told apart by the zero address, fails exactly when a sender with a row has too little; otherwise the recipient gains the value, a sender with a row loses it, and no other balance moves; which rows are there afterwards, and of which type |
| HolderPlugin.CollectLog1155 | plugins/erc1155_721_holder_v2/token.go:167-241 | the loop over ids gives one operation an id in order, or fails on undecodable data or on more ids than values |
| HolderPlugin.CollectBlock | plugins/erc1155_721_holder_v2/token.go:82-118 | the nested loops give the operations of the logs of successful receipts, in order, or fail with the first bad log |
| HolderPlugin.CollectBlocks | plugins/erc1155_721_holder_v2/token.go:70-80 | the loop over blocks gives the operations of the whole run of blocks, or fails |
| HolderPlugin.CollectTouchedKeys | plugins/erc1155_721_holder_v2/state.go:146-180 | exactly the keys that ERC-1155 operations credit or debit, each once |
| HolderPlugin.Accumulate | plugins/erc1155_721_holder_v2/state.go:62-102 | the imperative pass over three maps gives the pending state of the specification, and fails when that does |
| HolderPlugin.HolderStore.LoadExistingHolderStates | plugins/erc1155_721_holder_v2/state.go:182-214 | chunked reads return just the stored rows of the given keys |
| HolderPlugin.HolderStore.DeleteHoldersByToken | plugins/erc1155_721_holder_v2/state.go:241-264 | chunked deletes remove the rows of the given tokens and no others |
| HolderPlugin.HolderStore.DeleteHoldersByKey | plugins/erc1155_721_holder_v2/state.go:216-239 | chunked deletes remove the rows of the given keys and no others |
| HolderPlugin.HolderStore.UpsertHolderStates | plugins/erc1155_721_holder_v2/state.go:266-284 | chunked upserts lay all the in-memory rows over the table |
| HolderPlugin.HolderStore.ApplyHolderOperations | plugins/erc1155_721_holder_v2/state.go:52-111 | succeeds exactly when one-at-a-time application does, leaves the table alone otherwise, and gives its table when no burned token is issued again |
| HolderPlugin.HolderStore.PutBlocks | plugins/erc1155_721_holder_v2/token.go:53-68 | the call's effect on table, cached and committed height for good, undecodable, underflowing and rolled-back batches |
| HolderLaws.SupplyLaw | plugins/erc1155_721_holder_v2/state.go:90-144 | a token's supply after any list is the supply before plus mints less burns plus the debits that found no row |
| HolderLaws.BatchesConserveExactly | plugins/erc1155_721_holder_v2/state.go:90-144 | over a whole history in batches no row is negative, supply is at least mints less burns, and equals it if and only if every debit was covered |
| HolderLaws.RowlessTransferMints | plugins/erc1155_721_holder_v2/state.go:120-125 | a transfer from an address without a row adds its value to the supply although nothing is minted |
| HolderLaws.NeverNegative | plugins/erc1155_721_holder_v2/state.go:113-144 | no list of operations with natural values makes a row negative |
| HolderLaws.LegacyAgrees | plugins/erc1155_721_holder/token.go:61-227 | applied one at a time, the operations of the batched plugin leave the same rows, types and ERC-1155 values as the older plugin; they underflow on exactly the lists on which the older one drives a row below zero |
| HolderLaws.BatchesMatchLegacy | plugins/erc1155_721_holder/token.go:61-227 | so do batches however cut, as long as none issues a burned token again; one of them is refused exactly when the older plugin drives a row below zero |
| HolderLaws.BatchesMatchLegacy1155 | plugins/erc1155_721_holder/token.go:160-226 | for ERC-1155 contracts alone, batches however cut leave the older plugin's very table |
| HolderLaws.OneOwnerRow | plugins/erc1155_721_holder_v2/token.go:120-165 | after any batching of a well-formed ERC-721 history each token has at most one row, and its holder is the owner |
| HolderLaws.ChainCutsAreInvisible | plugins/erc1155_721_holder_v2/token.go:53-80 | the table left by successive calls depends on the chain alone, not on how it was cut into calls |
| HolderEvents.TransferLogMeaning | plugins/erc1155_721_holder_v2/token.go:135-164 | what an ERC-721 transfer log, lawful or not, does to every row: from the zero address the recipient gets the token, to it every row of the token goes, otherwise the recipient takes the sender's place |
| HolderEvents.PutBlocksKeepsOwner | plugins/erc1155_721_holder_v2/token.go:53-165 | one committed call moves a token's one row, its owner's, to the owner that the transfer logs in the blocks' successful receipts leave it to; none stays for a token left to the zero address |
| HolderEvents.RowIsLastRecipients | plugins/erc1155_721_holder_v2/token.go:53-165 | however the chain is cut into calls: a token whose transfers all come from its owner has one row, that of the recipient of its last transfer, or none if it has none or was burned last |
| HolderEvents.RowIsNetOfLogs | plugins/erc1155_721_holder_v2/token.go:82-241 | however the chain is cut into calls: an ERC-1155 holder's row is worth at least what the logs of successful receipts brought it less what they took, and exactly that if and only if each of its debits found a row |
| HolderEvents.RefusedExactly | plugins/erc1155_721_holder_v2/token.go:82-118 | blocks are refused if and only if a successful receipt has a log of a classified contract, with at least two topics, that does not decode or names more ids than values |
| Indexer.ConsecutiveExactlyWhenAligned | db/index.go:31-59 | in every interleaving, rollbacks and restarts included, all plugins' committed batches run on without gap or repeat if and only if each commit came from a runner that entered its loop with both heights equal |
| Indexer.FaultFreeRunsAreConsecutive | server/runner.go:257-394 | with no rollback after caching and no stale height cached, batches are consecutive and the next height at the inner loop head is the cached height plus one |
| Indexer.UnstaleRunsAscend | server/runner.go:257-394 | with no stale height cached, whatever rolls back or restarts, no plugin's batch ever goes back to a block at or below its committed height |
| Indexer.WholeExactlyWhenContiguous | server/runner.go:257-394 | a plugin whose batches never go back has committed every block up to its height if and only if they are consecutive |
| IndexerBounds.AlwaysSteady | db/index.go:41-59 | in every run: heights read of a plugin and not cached yet agree and never exceed its height, and a runner's next block is above its cached height |
| IndexerBounds.BoundedExactly | server/runner.go:404-421 | from a world of any run in which no height or tip passes the dao's or that of a dependency read for it, a step leads to another if and only if it is no restart with a committed height above a dependency's, and no late store of a height below another dependant's height or below a tip that has read the plugin |
| IndexerBounds.NeverPassesDependencies | server/runner.go:404-421 | all along a run, rollbacks included, no plugin's cached height or tip passes the dao height or the cached height of a dependency read for it, if and only if each restart and each late store met that condition |
| IndexerFaults.RestartLeavesDependantAhead | db/index.go:31-34 | a dependency's rollback followed by a restart leaves a dependant that committed meanwhile ahead of it by all heights |
| IndexerBounds.AlwaysCoveredExactly | server/runner.go:404-421 | in every run: each tip is always committed by the dependencies read for it, if and only if each read and each late store lowers the tip to what the dependency has committed, and no commit goes back below the tip of a dependant |
| IndexerBounds.CoveredExactlyWhenReadsCommitted | server/runner.go:404-421 | where no batch goes back, so with rollbacks and restarts but no stale height: if and only if each read of a cached height lowers the tip to what is committed |
| IndexerBounds.SendsCommittedExactly | server/runner.go:257-274 | at the inner loop head, whatever number of blocks is sent is committed by all dependencies if and only if the tip is |
| IndexerBounds.SentBlocksAreCommitted | server/runner.go:257-274 | in a run that keeps tips committed, all dependencies had committed the height of every block by the time it was sent |
| IndexerBounds.SentBlocksAreDelivered | server/runner.go:257-274 | a dependency with consecutive batches then holds the blocks themselves, and all before them |
| IndexerFaults.DependantCommitsFirst | db/index.go:31-34 | from any fault-free run with a plugin and its dependant idle, a fault-free continuation has the dependant commit a block that the plugin, in mid-transaction, has not |
| IndexerFaults.SendUpTo | server/runner.go:237-262 | an idle plugin whose dependencies are far enough sends the blocks from the one after its cached height, and only its own state moves, but for caches being filled |
| IndexerFaults.RollbackSkipsABlock | db/index.go:31-34 | from any run with a plugin idle and its dependencies two blocks ahead, a transaction failing after its height was cached makes the plugin's next committed batch leave a block out |
| IndexerFaults.StaleStoreRepeatsABlock | db/index.go:41-59 | from any run with a plugin and a dependant idle and the plugin's height not cached, a dependant that reads the stored height and caches it late makes the plugin commit a block twice |
| Runner.HeightIndex.GetIndexHeight | db/index.go:41-59 | reports the cached height, else the stored one, else 0, and changes no reported height and no stored one except by creating a missing row |
| Runner.HeightIndex.UpdateIndexHeightByTx | db/index.go:31-34 | the reported height moves at once; the committed one, which the delegate gate reads, moves only with the transaction and after a rollback reads as before |
| Runner.BatchSizeManager.constructor | server/batch_size_manager.go:28-35 | starts at the maximum, within its bounds from an initial size of 1 on |
| Runner.BatchSizeManager.OnSuccess | server/batch_size_manager.go:45-67 | after ten successes the size grows by a fifth up to the maximum, and always stays in 1 to the maximum |
| Runner.BatchSizeManager.OnFailure | server/batch_size_manager.go:70-86 | the failed size is halved, but to at least 1, and the success count starts over |
| Runner.TenSuccessesGrow | server/batch_size_manager.go:45-67 | from 5 up and below the maximum, at most ten successes raise the size |
| Runner.ReachesMax | server/batch_size_manager.go:45-67 | from 5 up, ten successes for each step missing are enough to reach the maximum |
| Runner.RecoversExactly | server/batch_size_manager.go:45-67 | successes alone bring a size to the maximum if and only if it is there or is at least 5 |
| Runner.FetchBlocks | server/runner.go:459-482 | exhausted requests are retried, each at half the size of the one before, until one is not; its answer is returned, and the batch size is left at its size |
| Runner.AnsweredMeans | server/runner.go:464-476 | the request answered is the first that is not exhausted, the i-th being the count halved i times but at least one |
| Runner.RetriesAreFew | server/runner.go:464-476 | when one-block requests are served, there are at most log2(count) retries |
| Runner.Trim | server/runner.go:290-298 | keeps all blocks, or a non-empty prefix that only its last block takes past the transaction limit |
| Runner.Loop.GetTipHeight | server/runner.go:404-421 | the least of the dao height and the dependencies' heights, leaving all reported heights as they were |
| Runner.BatchCount | server/runner.go:268-273 | the greatest number of blocks within the batch size, if there is one, that reaches no further than the tip |
| Runner.Loop.FetchBatch | server/runner.go:269-299 | asks for that many blocks, trims what it gets to 500 transactions a block asked for, and adapts the batch size |
| Runner.Loop.DeliverBatch | server/runner.go:257-394 | a success commits just the fetched and trimmed blocks from the next height on; a failure leaves log and stored height alone |
| Runner.Loop.DeliverTo | server/runner.go:257-394 | the inner loop's batches run on from the cached height without gap or repeat up to the tip at most, for any failures; heights never fall |
| DelegateSnapshot.FirstBehind | plugins/delegate/util.go:498-506 | finds the first plugin below the target or unreadable, or none |
| DelegateSnapshot.ContiguousTable | plugins/delegate/util.go:42-46 | a plugin with consecutive batches holds the chain's own rows up to its committed height |
| DelegateSnapshot.UpToPrefix | plugins/delegate/util.go:399-401 | a read limited to a height is the chain at that height, however far the table has grown |
| DelegateSnapshot.ReadIsChainExactly | plugins/delegate/util.go:42-46 | whatever gaps rollbacks left in a plugin's batches: a read up to a height is the chain at that height if and only if no block up to it that the plugin lost, or has not committed, had rows |
| DelegateSnapshot.ReadsAreOneSnapshot | plugins/delegate/util.go:44-109 | in every interleaving in which no batch goes back, rollbacks and restarts included: past the gate every table read equals what the table holds up to the one height taken at the start, when it was read and at any later moment |
| DelegateSnapshot.UnstaleMovesAscend | plugins/delegate/util.go:42-46 | every interleaving without a stale height is one of those |
| DelegateSnapshot.ReadsAreTheChainExactly | plugins/delegate/util.go:44-109 | a read of the job is the chain's at that height if and only if its plugin lost no block with rows up to there |
| DelegateSnapshot.AlignedReadsAreTheChain | plugins/delegate/util.go:44-109 | with consecutive batches every read is the chain's |
| DelegateSnapshot.NoBucketAmountMissing | plugins/delegate/util.go:238-241 | in every interleaving whatever, every bucket with a latest row has a sum, although the two are separate reads, so the missing-amount error cannot occur |
| DelegateSnapshot.MigratedStakeCountsOnce | plugins/delegate/util.go:57-70 | where no batch goes back and neither plugin lost a block with rows, a stake migrated from v2 to v3 votes through exactly one of the two tables read |
| DelegateSnapshot.UngatedReadsCountOnceExactly | plugins/delegate/util.go:57-61 | without the gate it is counted once if and only if both tables were read on the same side of the migration |
| DelegateGate.HeightIsNatives | plugins/delegate/util.go:44-47 | in every interleaving a job that is past its start works at the height staking_actions had committed when it started, and has not given up or been restarted since |
| DelegateGate.OpenGateLetsThrough | plugins/delegate/util.go:48-109 | from any reachable state in which the job waits: if every gated plugin has committed what staking_actions has, its own steps take it through all its reads, each of its table up to that height |
| DelegateGate.ShutGateLetsNothingThrough | plugins/delegate/util.go:48-70 | otherwise no number of its own steps gets it to a read |
| DelegateGate.ShutGateSendsBack | plugins/delegate/util.go:48-70 | it gives up at the first plugin that is behind, and starts over |
| DelegateMap.Tallying.AddSystemStakings | plugins/delegate/util.go:463-475 | contract buckets add to the delegates they name, none to others, and the total stays the sum of the weights |
| DelegateMap.Tallying.AddUnstaked | plugins/delegate/util.go:186-209 | just the candidates without native buckets start on the board, at zero |
| DelegateMap.Tallying.GetDelegateMap | plugins/delegate/util.go:183-259 | succeeds exactly when every native bucket has a known candidate and amount; then every candidate has the sums of its native buckets and of the contract buckets naming it, and the total is the sum of the weights |
| DelegateMap.OrderDoesNotMatter | plugins/delegate/util.go:183-259 | a delegate's tally is the same for every order of the buckets |
| DelegateRun.LatestRowsAre | plugins/delegate/util.go:420-422 | the query by greatest id returns just the rows that are their bucket's latest |
| DelegateRun.BucketSumsAre | plugins/delegate/util.go:399-417 | the grouped sums have just the buckets with rows, each with the sum of its rows' amounts |
| DelegateRun.LatestIsLast | plugins/delegate/util.go:390-396 | a bucket's latest row is the last inserted of its rows |
| DelegateRun.TallyIsOfRows | plugins/delegate/util.go:183-259 | a delegate's stake is the sum of the amounts of native buckets, and of the latest amounts of contract buckets, whose latest row names it; its weight takes the voting power there, and auto-stake, duration and ownership of the native row |
| DelegateRun.OnlyCandidatesMissing | plugins/delegate/util.go:210-241 | when every latest row has an amount, the tally fails exactly for an unknown candidate |
| DelegateRun.StoredAreChainsExactly | plugins/delegate/util.go:86-109 | the reads the stored tables give are the chain's if and only if none of them lacks rows of a block up to the height |
| DelegateRun.TallyDelegates | plugins/delegate/util.go:40-117 | in every interleaving: each candidate gets the stake and weight of the rows read that name it, the total is the sum of the weights, it fails exactly for an unknown candidate, and its height is what staking_actions had committed at the start; where no batch goes back the reads are the stored tables at one height, and the chain's if and only if no rows were lost |
| AccountIncome.GetIncomes | plugins/account_income/account_income.go:88-137 | the nested loops give each party of a block the sums and counts of what it sent and received; an invalid recipient drops the credit only |
| AccountIncome.AddAppend | plugins/account_income/account_income.go:139-224 | adding the flows of two runs of transfers in turn is adding those of both together, so batching is invisible |
| AccountIncome.TotalsAreRowSums | plugins/account_income/account_income.go:145-169 | what an address's total gained is the sum of its per-block rows: the two tables agree |
| IncomeLaws.TotalsGrow | plugins/account_income/account_income.go:88-169 | over any transfers, each column of the totals, summed over all addresses, grows by the amounts and by the number of the transfers with a real party on that side |
| IncomeLaws.FlowsAreConserved | plugins/account_income/account_income.go:88-169 | income less outgo of all addresses together changes only by transfers from nobody and to nobody (an empty or invalid recipient) |
| AccountIncome.Plugin.BufferBlock | plugins/account_income/account_income.go:139-172 | the buffers gain just the block's rows and its flows, whatever order the map gives |
| AccountIncome.Plugin.CommitBatch | plugins/account_income/account_income.go:174-206 | buffers are emptied whatever happens; a commit inserts the rows and adds the deltas, a failure leaves both tables |
| AccountIncome.Plugin.PutBlocks | plugins/account_income/account_income.go:216-224 | a committed call adds each block's rows and flows once; a failed one leaves tables as they were and nothing in the buffers |
| AccountIncome.Plugin.Index | plugins/account_income/account_income.go:174-224 | over every run of deliveries, however they fail: both tables are genesis plus the committed blocks, each counted once, and each is complete to the cached height if and only if the blocks lost to rollbacks after caching had no rows |
| AccountIncome.CompleteExactly | plugins/account_income/account_income.go:181-205 | the rows and the totals of some of the blocks are those of all if and only if the other blocks had no rows |
| AccountIncome.Plugin.Start | plugins/account_income/account_income.go:45-86 | genesis balances are written if no row of block 0 is there; the write fails, and changes nothing, exactly when one of the addresses has totals already |
| BlockSupply.BalanceMoves | plugins/block_supply/util.go:20-54 | the full-history balance at a later height is the balance now plus the flows in between |
| BlockSupply.SupplyOf | plugins/block_supply/util.go:58-80 | circulating, locked, zero-address and the two fixed balances make up the total balance; total and circulating supply differ by what is locked |
| BlockSupply.SupplyRightExactly | plugins/block_supply/util.go:58-80 | a row computed from shifted balances is right if and only if neither balance is shifted |
| BlockSupply.Plugin.Start | plugins/block_supply/block_supply.go:38-59 | the running balances start at the full-history ones, less what is not committed yet |
| BlockSupply.Plugin.PutBlock | plugins/block_supply/block_supply.go:61-84 | both running balances move by what the queries found, and one row with the supplies they give is buffered |
| BlockSupply.Plugin.PutBlocks | plugins/block_supply/block_supply.go:108-116 | table, heights and how far the balances are off after a commit, a failure before caching and a rollback after it, given what the queries missed |
| BlockSupply.Plugin.PutBlocksQueryFails | plugins/block_supply/block_supply.go:65-71 | a query failure leaves the earlier blocks' rows in the buffer and the flows added so far in the balances |
| BlockSupply.Plugin.Index | plugins/block_supply/block_supply.go:43-116 | over every run of attempts that commit, roll back, fail early or in a query, with flows read before or after they were committed: rows are missing only for heights lost to a rollback after caching, and all rows equal those recomputed from the full history if and only if at each stored block leftovers and missed flows come to nothing |
| BlockSupply.NoFailureNoDrift | plugins/block_supply/block_supply.go:61-98 | with no attempt failing and every flow committed when it is read, the balances are never off and every row is right |
| BlockSupply.UncommittedReadShows | plugins/block_supply/util.go:39-54 | with no attempt failing, one query of a block that misses its flow makes rows of the attempt and the balance from then on wrong, unless the block moved nothing at that address |
| BlockSupply.LeftoversFailTheNext | plugins/block_supply/block_supply.go:86-116 | with rows left over from a query failure, the next transaction inserts a height twice and fails |
| AccountVote.BalancedExactly | plugins/account_vote/account_vote.go:87-365 | from a ledger where each bucket's amount is all at its latest (address, candidate), an event leaves such a ledger if and only if a create, restake or unstake is by the latest holder or finds the bucket empty |
| AccountVote.RestakeAfterForwardBreaks | plugins/account_vote/account_vote.go:147-165 | a restake by the former holder of a forwarded bucket leaves the amount with the receiver and the latest row with the former holder |
| AccountVote.CancelStake | plugins/account_vote/account_vote.go:312-364 | a governance cancel changes no bucket's holder, candidate, sum, auto-stake or duration, and writes no row unless the votes were forwarded to the address itself |
| AccountVote.Moved | plugins/account_vote/account_vote.go:111-146 | a double entry moves the whole amount to the new holder and changes neither the sum nor any other bucket |
| AccountVote.QueryIsHolding | plugins/account_vote/model.go:92-122 | the query for an address's buckets finds exactly those whose latest row names it |
| AccountVote.RowsFollowStakes | plugins/account_vote/account_vote.go:87-365 | each event changes holder, candidate, sum, auto-stake and duration of every bucket as a map of stakes without rows would |
| AccountVote.ForwardedToFollows | plugins/account_vote/account_vote.go:246-311 | where an address last forwarded its votes to changes by its own forward of at least one bucket to a named receiver, to that receiver, and by nothing else |
| AccountVote.RowsHaveHeight | plugins/account_vote/account_vote.go:87-365 | an event only appends, and each row it appends has the height of its block |
| AccountVote.RowsCarryTerms | plugins/account_vote/account_vote.go:111-365 | every row of an event other than a create or restake carries on its bucket's auto-stake and duration, in both halves of a double entry |
| AccountVote.ReachableTables | plugins/account_vote/account_vote.go:69-369 | over every history the latest row and sum of a bucket are its stake, and the point mass holds if every event keeps it |
| AccountVote.AlwaysBalancedExactly | plugins/account_vote/account_vote.go:69-369 | over every history the point mass holds after every event if and only if every event keeps it |
| AccountVote.VotesAreHoldings | plugins/account_vote/model.go:49-83 | in a balanced ledger an address's summed votes for a candidate are the amounts of the buckets it now holds for it |
| AccountVote.Table.HandleEvent | plugins/account_vote/account_vote.go:87-365 | appends the rows of the specification, for a forward or cancel in whatever order the query gives the buckets |
| AccountVote.Table.HandleBlock | plugins/account_vote/account_vote.go:69-369 | over a block the ledger stays balanced if every event keeps it, each bucket's stake evolves event by event, and only rows of the block's height are appended |
| SelfStake.LookupIsLatest | models/candidate_self_stake.go:17-21 | on a table in chain order the point-in-time query has exactly one answer, the last row inserted up to that height |
| SelfStake.HistoryIsKept | plugins/candidate_self_stake/candidate_self_stake.go:107-194 | for any run of events in chain order, the rows up to any height give the candidates' buckets as of the end of that block |
| SelfStake.LookupIsHistory | models/candidate_self_stake.go:17-21 | the query at a past height finds that bucket, and finds nothing for a candidate that had none yet |
| SelfStake.UnstakeExactly | plugins/candidate_self_stake/candidate_self_stake.go:170-191 | recording an unstake on the first holder only is right if and only if no other candidate holds the bucket |
| SelfStake.SharedUnstakeBreaks | plugins/candidate_self_stake/candidate_self_stake.go:170-191 | of two candidates with one bucket, the later in order keeps it on record after it is unstaked |
| SelfStake.RecordsAreTrue | plugins/candidate_self_stake/candidate_self_stake.go:107-194 | with no shared bucket ever unstaked, the recorded buckets are the candidates' own after any run |
| SelfStake.AlwaysTrueExactly | plugins/candidate_self_stake/candidate_self_stake.go:107-194 | the recorded buckets are the candidates' own after every event if and only if no bucket is shared when it is unstaked |
| SelfStake.SelfStakeIsTrue | plugins/delegate/util.go:548-558 | then the self-stake test at any past height says whether the last event that set the candidate's bucket up to that block set a real one, not unstaked since |
| SelfStake.SetPasses | plugins/candidate_self_stake/candidate_self_stake.go:107-168 | shared buckets or not: after an event that sets a bucket the candidate passes the test if and only if the bucket is not 2^64-1 |
| SelfStake.ScanBack | plugins/candidate_self_stake/candidate_self_stake.go:213-221 | the scan from the end keeps the last record of each candidate |
| SelfStake.ReverseInPlace | plugins/candidate_self_stake/candidate_self_stake.go:222-225 | swapping the ends reverses the array in place |
| SelfStake.FetchCandidates | plugins/candidate_self_stake/candidate_self_stake.go:196-229 | returns exactly the latest row of each candidate, in strictly ascending order of candidates |
| SelfStake.Table.UpsertRecord | plugins/candidate_self_stake/candidate_self_stake.go:231-236 | a row with the same candidate and action is overwritten, otherwise one is appended |
| SelfStake.UpsertMeaning | plugins/candidate_self_stake/candidate_self_stake.go:231-236 | an upsert keeps (candidate, action) unique, puts its row in, changes no row of another key, and changes nothing if and only if that very row is there |
| SelfStake.SetAgain | plugins/candidate_self_stake/candidate_self_stake.go:107-168 | a set delivered again at any later time changes nothing |
| SelfStake.UnstakeAgainExactly | plugins/candidate_self_stake/candidate_self_stake.go:170-191 | an unstake delivered again changes nothing if and only if at the end of its block the bucket has no holder on record, or the row it would write is there already |
| SelfStake.Table.HandleAction | plugins/candidate_self_stake/candidate_self_stake.go:107-194 | writes the one row the event calls for: on an unstake for the least candidate holding the bucket, if any |
| VerifyDb.LeftoverIsDifference | cmd/tools/verify_db.go:184-213 | greedy first-match removal leaves the multiset difference, so it takes out as much as any matching could |
| VerifyDb.VerifyAll | cmd/tools/verify_db.go:229-250 | the loop with its count check and early stop passes if and only if rows and chain items are equal as multisets |
| VerifyDb.VerifyAction | cmd/tools/verify_db.go:161-218 | passes if and only if the block row agrees in hash or action count and the actions are equal as multisets |
| VerifyDb.VerifyLogs | cmd/tools/verify_db.go:256-276 | passes if and only if the stored logs are among the chain's, as multisets |
| VerifyDb.VerifyTransactions | cmd/tools/verify_db.go:289-318 | passes if and only if stored and chain transactions are equal as multisets, although it stops at the first without a row |
| AccountMeta.GetAccounts | plugins/account_meta/account_meta.go:51-86 | just the non-empty addresses that are a receipt's contract, a log's address, a transfer's sender or its recipient in canonical form, each once |
| AccountMeta.SeenIsFirst | plugins/account_meta/account_meta.go:106-124 | an address is kept exactly when it appears so in the receipts of some block, and then with the height of the first such block |
| AccountMeta.InsertedExactly | plugins/account_meta/account_meta.go:126-196 | a batch stores every first-seen height if and only if every new account's lookup is answered |
| AccountMeta.Plugin.CollectProcessAccounts | plugins/account_meta/account_meta.go:106-124 | the uncached accounts of a batch, each with the first block that names it |
| AccountMeta.Plugin.PutBlocks | plugins/account_meta/account_meta.go:158-204 | cached accounts are always stored ones, rolled-back calls included; accounts found stored are cached at once, new ones after the commit, and a committed call stores just what it would without a cache |
| AccountMeta.Plugin.Index | plugins/account_meta/account_meta.go:158-204 | over every run of deliveries, however they fail and whatever lookups are answered: the table has the first-seen heights of all blocks to the cached height if and only if for each account the first delivery that names it committed with its lookup answered |
| AccountMeta.StoredByFirstAnswer | plugins/account_meta/account_meta.go:126-152 | otherwise an account is stored by the first committed delivery that names it with its lookup answered, with the first block there that names it |
| AccountMeta.KeptAreSeen | plugins/account_meta/account_meta.go:158-204 | with all lookups answered the table has the first-seen heights of the committed blocks, whatever was rolled back |
| BlockActionPartition.AlignedAreDisjoint | plugins/block_action_partition/block_action_partition.go:246-261 | no height lies in two partitions |
| BlockActionPartition.Table.EnsurePartitions | plugins/block_action_partition/block_action_partition.go:246-261 | adds only aligned partitions that hold some height of the range, and every height of it is then covered |
| BlockActionPartition.AtDeleted | plugins/block_action_partition/block_action_partition.go:272-274 | deleting a range empties its heights and leaves the rows of all others as they were, in order |
| BlockActionPartition.RangeReplaced | plugins/block_action_partition/block_action_partition.go:271-279 | deleting a range and inserting its blocks' rows leaves each height of the range with just its block's rows and no other height changed |
| BlockActionPartition.Table.CommitActs | plugins/block_action_partition/block_action_partition.go:263-287 | a commit replaces the range's rows, each in a partition; a failure changes no row |
| BlockActionPartition.Table.Deliver | plugins/block_action_partition/block_action_partition.go:166-181 | under repeated and overlapping deliveries in any order, each delivered height holds its block's rows once, all others are untouched |
| Reward.RewardInfoFromReceipt | kernel/reward.go:24-118 | fails exactly on an undecodable topic-free log or a payout without amount; otherwise the keys are the addresses of rewards, bonuses and slashes in topic-free logs, each with its five sums over those logs |
| Reward.PayeesSum | kernel/reward.go:140-145 | adding a kind up over the payees is adding it up over the logs |
| Reward.AddRewards | kernel/reward.go:140-145 | the totals grow by the same amounts whatever order the map gives its addresses |
| Reward.RewardAt | kernel/reward.go:122-149 | fails exactly when a grant-reward receipt has such a log or payout; otherwise the four totals are the direct sums by kind over the topic-free logs of the grant-reward receipts, and the gas that of all receipts |

## Left out

- SQL text, gorm and the drivers: only "latest row per key", "sum by key", "upsert on a unique key", "delete a range" and atomic transactions are kept. A database error inside a transaction is a delivery that fails.
- ABI, protobuf and address decoding, hashing: events and logs come decoded, recipients as valid or invalid. Token ids are naturals, the order of candidate ids that of naturals.
- Contract classification (`isErc721`, `isErc1155`) is a given registry; its own errors and the older plugin's other way of classifying are not modelled, so both plugins see the same operations.
- Integer widths: heights, sizes and counters are unbounded, except that 2^64-1 stands for "no bucket". Batch growth by the float factor 1.2 is the integer 6*s/5, halving is s/2.
- `calculateVoteWeight`: an arbitrary function of amount, auto-stake, duration and self-stake, because its logarithms and floats are not the point of the tally.
- What the delegate job does after the tallies: overrides from the chain's candidate lists, names, activity, productivity, probation, and writing the delegate table.
- The temporary table of latest staking ids and its join are one read of the native table, which is sound because rows are only appended; whether the v3 table exists does not change during a run of the job.
- Catch-up mode, crawl mode and start-height jumps, runner stops and sleeps, metrics, logging, the command line.
- Rows of index heights exist from the start, at height 0; that they are created on the first read is modelled in `Runner` but not among the interleaved steps of `Indexer`.
- Runner.FetchBlocks: assumes that a fetch is not answered "exhausted" for ever; the code would then retry for ever.
- Runner.Loop.DeliverBatch: assumes a block source that never returns more blocks than asked for, and a batch plugin that fails on an empty batch; plugins that accept one would let the loop turn without progress. The single-block path and plugins without batches are left out.
- Restarts of the process within a plugin's run of deliveries (`AccountIncome`, `AccountMeta`, `BlockSupply`): a run starts from any state, and restarts are steps of `Indexer` only. Which flows a block_supply query misses is an input of `BlockSupply`; that it misses none is what `IndexerBounds.SentBlocksAreCommitted` gives for blocks that account_income did not lose.
- Of account_vote: a forward log with two topics only, on which the code panics; looking up candidate addresses and bucket ids in other tables.
- Parsing of the staking events of candidate_self_stake: an event that sets a candidate's bucket carries the bucket, and a receipt without such an event is "unrelated".
- The fields compared by verify_db are one tuple, as matching is equality of all of them; `parseTopics` and the name tables are not modelled.
- account_income_v1, candidate_v1, delegate_record, block_meta, the ERC-20 and clickhouse plugins: near copies or plain row builders.
