# The windowed indexer, in Dafny

The program is a REST shim in front of a keryxd node. Its core is a **windowed
indexer**: a durable store that follows a chain whose tip can be reorganised,
keeps a rolling window of transactions, and answers lookups from tables derived
from them. This project models that core and the pieces around it that carry
real logic, and proves what they promise for every input, every run or every
reachable state.

`dafny verify dfyconfig.toml` checks everything.

## How the model is laid out

| file | what it holds |
|---|---|
| `Types`, `Scans`, `Listings` | wire and stored records, 64-bit arithmetic, key-ordered scans, pages, tables as lists |
| `Attribution` | `compute_ledger`: the two accumulation loops, and conservation |
| `Tables` | the seventeen tables as values; what one committed `apply`, `unwind_chain_block` or `expire_below` does to them; runs |
| `Coupling`, `Runs` | the coupling invariant of every reachable state, against the store's own books |
| `Lookups`, `Branches`, `Reachable` | completeness of the lookups, branches, runs of legal applies |
| `Rollback`, `Reorg`, `Confluence` | what going up and coming down again does to the totals, exact unwinding, reorg confluence |
| `Amounts` | every history row against the transaction as it was accepted |
| `Accounts`, `Overflow` | the counters against the chain's own events; a run past 2^64 |
| `Replay` | batching and crash replay |
| `Retention` | the early-breaking sweep and the chain discipline |
| `InferenceIndex`, `Feed` | the inference tables and their two reads |
| `Writers`, `Store` | the imperative store: a class whose writers loop over tables, proved equal to `Tables` |
| `Staging`, `Follower` | bounded staging, the join with acceptance lists, notifications, the rate-limited sweep |
| `Window`, `Backfill` | the stored window over follower runs with restarts; the gap-fill against the live path |
| `FollowReorg` | reorgs as the follower performs them, sweeps included |
| `Requests`, `Responses`, `Sightings` | requests, first responses, challenges, capabilities and the two inference reads of every run, as functions of its events |
| `Incidents` | what goes wrong on the program's own path: runs of a fresh follower |
| `Keys` | the byte keys: injective, ordered, and a range scan is a filter |
| `Checksum`, `Regroup`, `Hex`, `Address`, `WalletVector` | the address codec over bit-vectors, and one address the wallet derives |
| `Payload` | the response grammar and sealed-prompt recipients |
| `Overlay` | the mempool overlay |
| `NodeClient` | the multiplexed connection |
| `Wiring` | the store reading scripts and responses with the codecs above |

Where the source changes things step by step the model does too: `Store`,
`Follower`, `Bounded`, `Staging` and `Connection` are classes, and the loops over
tables, accumulators and maps are loops with invariants. A hash map that the
source drains is drained here in an arbitrary order. Each such method is proved
equal to a function on values, and the theorems are about that function.

A *run* is any sequence of applies, unwinds and sweeps of a fresh store. The
*log* of a run follows the events alone: an apply adds the transactions of the
blocks it did not skip, an unwind of a block takes out every logged transaction of
that block, a sweep changes nothing. The *books* are what the store itself counts:
its unwind can only take out what its tables still list for the block.
A *follower run* is any sequence of notifications and restarts of a fresh follower:
it sweeps only when and where `apply_groups` does, and a restart keeps the store but
forgets the last sweep.

## Assumptions made explicit

- *Legal* or *clean*: distinct transaction ids, no outpoint spent twice. Used only
  where a lookup must be complete or a reorg confluent, and `StoreKeepsComplete`
  shows that completeness holds exactly for such transactions.
- *Disciplined* or *orderly*: removed blocks are the top of the applied chain, added
  blocks have non-decreasing DAA. Used only for the retention window and for the
  `is_applied` form of the counting result.
- *Shallow*: an added block with transactions is not below the window of the last
  sweep. Used only for the corollary `WindowStaysBounded`.
- *Unclashed*: a transaction id belongs to one request identity and is no other
  request's identity. Used only where the request table is described by its list.
- *Solvent*: an address's sum of credits has stayed below 2^64. Used only for exact
  received amounts over whole runs.

## Findings

- **The retention promise needs shallow reorgs.** With the chain discipline alone
  a reorg deeper than the window can leave a row stored further below the
  checkpoint than window + 900 (`DeepReorgEscapesWindow`, from a fresh follower),
  and it can do so one notification later, when every added block is recent
  (`DeepReorgEscapesLater`). `RunWindowBoundedIff` gives the exact condition for
  every notification of every orderly run: a sweep ran, or both the added blocks
  and `window_low_daa` before the call are recent.
- **A block removed after it was swept stays counted for ever.** The sweep drops the
  block's list, so `unwind_chain_block` returns 0 and `total_txs` and the addresses'
  totals keep it (`SweptBlockStaysCounted`, an orderly run of three notifications of a
  fresh follower). Over every run `total_txs` is exact if and only if no removal met a
  logged transaction the store did not list (`TotalIsExactIff`), and per address
  likewise (`CountIsExactIff`, `ReceivedIsExactIff`). On an orderly chain the check to
  make before a removal is `is_applied` (`DisciplinedTotalIsExactIff`).
- **A reorg across a sweep can leave traces.** A follower that applies a branch and is
  reorganised away from it reads as if it had only run the sweep that branch triggered,
  if and only if that sweep spared the branch's own blocks with transactions
  (`FollowReorgIff`); and the received amounts agree too if and only if every address
  also survives the branch.
- **A failed DAA resolution outlives sweeps.** A block applied with DAA 0 loses its
  metadata at the next sweep, so a later reorg cannot undo it, and it keeps its
  transactions if and only if some transaction stored before it is at or above the
  cutoff (`UnresolvedDaaEscapesSweep`, for every batch that triggers a sweep;
  `UnresolvedDaaRun`, two notifications of a fresh follower).
- **The gap-fill never unwinds.** It leaves the follower as a live notification would if
  and only if no removed block that is indexed holds transactions or comes back with
  some, and checkpoint, cutoff and the removed blocks' marks come out the same
  (`BackfillAgreesIff`). So it always differs when a block with transactions is among
  the removed (`GapFillRun`, from a fresh follower).
- **A request accepted again can be lost while it is stored.** A reorg leaves the
  request tables alone, so a request keeps the DAA of its first acceptance; a sweep past
  that DAA drops it although its transaction is stored, and `inference_by_tx` answers
  with nothing (`ReacceptedRequestIsLost`, three notifications). Over every run a request
  resolves by its transaction id if and only if it is on the list of requests: it was the
  first accepted under its identity since a sweep last freed that identity
  (`RequestResolvesIff`).
- **The feed goes on showing a removed response.** The first response recorded for a
  request is still stored if and only if its block was not removed since
  (`FirstIsStoredIff`); after a removal the record stays (`RemovedResponseStaysFirst`).
- **A difference of 2^63 sompi turns a row around.** A history row or a pending row tells
  what an address received less what it spent if and only if that difference fits 64
  signed bits (`RunRowsTell`, `PendingRowTells`); 2^63 received show as 2^63 spent
  (`HugeCreditLooksSpent`).
- **Received amounts past 2^64 do not survive an unwind.** The sum wraps going up
  and saturates going down, so the address is left with zero
  (`OverflowLosesReceived`, `LastSompiLosesAll`, runs of three events). A reorg
  restores a received amount if and only if it was zero or the abandoned branch did
  not carry it past 2^64 (`UnwindBranch`, `ReorgConfluence`).
- `docs/PHASE2.md` designs retention as the deletion of per-day segment files and
  notes later that a row sweep was built instead; the model follows the code.

## Model

| member | source | states |
|---|---|---|
| `Types.NetIsExactIff` | src/indexer/store.rs:482-486 | the wrapping i64 subtraction of two wrapped sums gives the exact difference if and only if that difference fits 64 signed bits |
| `Types.RowTellsNetIff` | src/indexer/store.rs:482-486 | so do the amount and the direction written into a row |
| `Types.HugeCreditLooksSpent` | src/indexer/store.rs:482-486 | a credit of 2^63 is written as a spend of 2^63 |
| `Attribution.CreditOutputs` | src/indexer/store.rs:1222-1227 | the credit loop leaves one entry per paid address with the sum of its outputs modulo 2^64 |
| `Attribution.DebitInputs` | src/indexer/store.rs:1228-1242 | the debit loop adds, per address, exactly the funding outputs still indexed |
| `Attribution.ComputeLedger` | src/indexer/store.rs:1216-1252 | the filled hash map is the ledger defined by sums: keys are the touched addresses, a coinbase debits nobody |
| `Attribution.LedgerConserves` | src/indexer/store.rs:1216-1252 | total credit is the total of standard outputs, and total debit that of indexed funding outputs, if and only if no single address reaches 2^64 on that side |
| `Scans.IncreasingIsUnique` | src/indexer/store.rs:967-985 | a key-ordered scan of a set is unique, so any sorted listing is the iterator's |
| `Scans.PagesTile` | src/indexer/store.rs:964-987 | consecutive pages join into one: no row repeated or skipped at a boundary |
| `Scans.PageIs` | src/indexer/store.rs:974-985 | row i of a page is row offset + i, and a page has min(limit, what is left) rows |
| `Coupling.StoreKeeps` | src/indexer/store.rs:463-498 | indexing one transaction under a fresh number keeps every derived table and counter coupled to the books |
| `Coupling.RemoveKeeps` | src/indexer/store.rs:681-708 | removing one transaction keeps them coupled to the books without it, and the counts it lowers are positive |
| `Coupling.ApplyKeeps` | src/indexer/store.rs:429-655 | a whole apply keeps the coupling, only adds rows, and numbers them from the counter up |
| `Coupling.UnwindKeeps` | src/indexer/store.rs:660-719 | an unwind of any hash, applied or not, keeps the coupling to the books without what the store listed for that block |
| `Coupling.ExpireKeeps` | src/indexer/store.rs:741-800 | a sweep at any cutoff keeps the coupling to the unchanged books |
| `Coupling.RollBackRestoresIff` | src/indexer/store.rs:688-695 | crediting and then unwinding restores an address's totals if and only if its sum did not reach 2^64 |
| `Runs.RunInv` | src/indexer/store.rs:429-900 | every run keeps the coupling invariant against the books, with no assumption on the chain |
| `Runs.CountsAreBooked` | src/indexer/store.rs:494-497 | in every run `total_txs` and each count are the sizes of the books, expired transactions included, and no received amount exceeds what they paid |
| `Runs.ReceivedIsBooked` | src/indexer/store.rs:959-962 | a received amount whose sum stayed below 2^64 is the exact sum over the books |
| `Runs.UnwindFindsAll` | src/indexer/store.rs:681-707 | in every reachable state and at every point of the unwind loop the listed transaction is present and each count is positive: the missing branch and the saturating counts never act |
| `Runs.UnwindNeverSaturates` | src/indexer/store.rs:688-695 | nor does the subtraction from a received amount that stayed below 2^64 |
| `Runs.LookupsAreSound` | src/indexer/store.rs:989-1017 | in every run `tx_by_id` answers only with a stored transaction of that id, `spend_of` only with a stored non-coinbase one having an input that names the outpoint, and no index entry dangles |
| `Runs.TablesAreCoupled` | src/indexer/store.rs:632-637 | in every run the history table is exactly the rows of stored ledgers, the three chain tables describe the same blocks, and every listed number is stored under that block and DAA |
| `Amounts.LedgerIs` | src/indexer/store.rs:1216-1252 | an address is in the ledger if and only if an output pays it or an input spends an output, looked up by id, that did; its entry is the two sums modulo 2^64 |
| `Amounts.StoredWasIndexed` | src/indexer/store.rs:463-498 | every stored transaction of every run was accepted at one place of one apply and is what indexing it against the tables of that moment gave |
| `Amounts.RunRowsTell` | src/indexer/store.rs:481-492 | in every run an address has a history row for a stored transaction if and only if it was touched; the row names transaction, block and DAA, and tells received less spent if and only if the difference fits 64 signed bits |
| `Accounts.AppliedAreLogged` | src/indexer/store.rs:457-641 | an apply logs exactly the transactions of the blocks it did not skip, numbered in order, each under its own block and DAA |
| `Accounts.RunSplits` | src/indexer/store.rs:672-675 | over every run the books are the log together with what some unwind did not find, disjoint, and the store lists none of the latter |
| `Accounts.CountsOverLog` | src/indexer/store.rs:494-497 | `total_txs` and each count exceed the log by exactly what unwinds missed |
| `Accounts.TotalIsExactIff` | src/indexer/store.rs:672-706 | over every run `total_txs` is the number of transactions applied and not removed if and only if no removed block had a logged transaction the store no longer listed |
| `Accounts.CountIsExactIff` | src/indexer/store.rs:688-695 | an address's count is exact if and only if no transaction so missed touches it |
| `Accounts.ReceivedIsExactIff` | src/indexer/store.rs:688-695 | so is its received amount, with sums below 2^64, if and only if none of them credits it |
| `Accounts.TotalIsExactIffApplied` | src/indexer/store.rs:924-927 | when no block is applied again while still logged, the check is `is_applied` before each removal of a block with logged transactions |
| `Accounts.DisciplinedNeverRepeats` | src/indexer/store.rs:457-460 | a disciplined run never applies a block again while still logged |
| `Accounts.DisciplinedTotalIsExactIff` | src/indexer/store.rs:672-706 | so in every disciplined run `total_txs` is exact if and only if no removed block with logged transactions had been swept |
| `Accounts.SweptBlockIsForgotten` | src/indexer/store.rs:672-675 | once a sweep has passed a block, in any reachable state, removing the block changes nothing |
| `Overflow.OverflowLosesReceived` | src/indexer/store.rs:688-695 | a run of two coinbase blocks paying an address 2^64 or more together, the second removed: the log is that of the first alone, the amount zero |
| `Overflow.LastSompiLosesAll` | src/indexer/store.rs:688-695 | the same with outputs of 2^64 - 1 and 2 |
| `Lookups.StoreKeepsComplete` | src/indexer/store.rs:469-479 | lookups stay complete if and only if the new transaction repeats no id and no spent outpoint |
| `Lookups.RemoveTxsKeepsComplete` | src/indexer/store.rs:681-708 | unwinding keeps the lookups of the remaining transactions complete |
| `Lookups.InsertTxsComplete` | src/indexer/store.rs:462-479 | a block of legal transactions keeps every stored transaction findable |
| `Branches.ApplyBranch` | src/indexer/store.rs:451-641 | applying a branch keeps the state coupled and complete and grows it by exactly the branch's transactions, in order |
| `Rollback.RoundTripAt` | src/indexer/store.rs:688-695 | credits going up and coming down again give an address its row and count back, and its amount unless the sum passed 2^64 |
| `Rollback.CreditAllInjective` | src/indexer/store.rs:494-497 | crediting the same ledgers never makes two different tables of totals equal |
| `Reorg.RowsAreDetermined` | src/indexer/store.rs:463-498 | transactions and log determine every row table but the received amounts |
| `Reorg.UnwindLastBlock` | src/indexer/store.rs:660-719 | unwinding the block just applied restores the eight transaction and chain tables and `total_txs`, and rolls exactly its ledgers back in the totals, whatever these hold |
| `Reorg.UnwindBranch` | src/indexer/mod.rs:230-239 | unwinding a branch of any length, highest block first, restores every table, and each received amount if and only if it was zero or the branch did not carry it past 2^64, else zero is left |
| `Reorg.ApplyWith` | src/indexer/store.rs:463-498 | applying stores the same rows whatever the totals hold, and credits exactly the stored ledgers |
| `Reorg.BranchCredits` | src/indexer/store.rs:1222-1227 | what a branch credits an address can be added up from its outputs before it is applied |
| `Confluence.TwinApply` | src/indexer/store.rs:463-464 | applying the same branch to two states that differ by an order-preserving renaming of numbers keeps them so |
| `Confluence.ReorgConfluence` | src/indexer/mod.rs:230-242 | following a branch and being reorganised to another reads like following the other alone: same checkpoint, counts, applied blocks, both lookups and every history page always, same received amounts if and only if every address survives the abandoned branch |
| `Reachable.RunSound` | src/indexer/store.rs:469-479 | every run of legal applies keeps the lookups complete, across reorgs and sweeps |
| `Reachable.LookupsAreComplete` | src/indexer/store.rs:989-1017 | in such a run every stored transaction is found by its id and, unless a coinbase, by the outpoint of each of its inputs |
| `Reachable.RunReorg` | src/indexer/mod.rs:226-243 | the same at the end of any run of legal applies, stated on runs of events |
| `Replay.ApplyConcat` | src/indexer/store.rs:451-652 | one batch or two give the same database, inference tables and counters included |
| `Replay.ApplyMarks` | src/indexer/store.rs:632-637 | after an apply exactly the old and the batch's hashes are marked applied |
| `Replay.ReplayIsNoOp` | src/indexer/store.rs:457-460 | groups that are all marked change nothing |
| `Replay.CrashReplay` | src/indexer/store.rs:457-650 | any committed prefix followed by any overlapping suffix equals one uninterrupted apply |
| `Retention.SweepIsExact` | src/indexer/store.rs:753-766 | stopping at the first kept transaction collects exactly those below the cutoff if and only if none below it is numbered after one at or above it |
| `Retention.RunOrdered` | src/indexer/store.rs:753-755 | in every disciplined run stored numbers are sorted by accepting DAA and anchored to indexed blocks, across reorgs and sweeps |
| `Retention.SweepDropsExactlyBelow` | src/indexer/store.rs:741-781 | so a sweep of such a run drops exactly the transactions below its cutoff |
| `Retention.WindowLowIsMinimum` | src/indexer/store.rs:945-957 | and `window_low_daa`, which reads only the first row, is the minimum stored DAA |
| `InferenceIndex.RunListInv` | src/indexer/store.rs:557-560 | in every run the response list, restricted to stored numbers, is exactly the decodable responses, because numbers are never reused |
| `InferenceIndex.ResponsesAreExact` | src/indexer/store.rs:1075-1088 | scanning the list and skipping what is gone lists exactly the stored responses naming the identity, in ascending acceptance order |
| `InferenceIndex.RunResponses` | src/indexer/store.rs:1059-1094 | the same for every run of a fresh store, although unwind leaves stale entries behind |
| `InferenceIndex.RunKeysInv` | src/indexer/store.rs:525-545 | in every run every request key points to a stored request carrying it as identity or transaction id |
| `InferenceIndex.SweepClosesInference` | src/indexer/store.rs:802-896 | after any sweep of any run nothing in the inference tables is below the cutoff, every list entry names a stored transaction, every response hash resolves to a request key, every key to its request |
| `InferenceIndex.RepliesAreListed` | src/indexer/store.rs:1075-1088 | the i-th response read for an identity is the i-th stored response transaction by number whose payload decodes and names it, with that decoding |
| `Sightings.SweepKeepsIff` | src/indexer/store.rs:802-896 | what any sweep of any run keeps, table by table and unchanged: requests, challenges and sightings if and only if at or above the cutoff, keys if and only if no dropped request had them, first responses if and only if both, list entries with their transaction, response hashes if and only if their target is still a key |
| `Sightings.RunSeenIs` | src/indexer/store.rs:605-623 | over every run a capability is listed with the DAA of the last accepted coinbase that declared it, until a sweep passes that DAA |
| `Sightings.RunNotesAre` | src/indexer/store.rs:581-601 | over every run the challenge table is the list of accepted challenges no sweep has passed, in order, each with the request it named or its response hash then stood for |
| `Requests.RunRequestsAre` | src/indexer/store.rs:523-545 | over every run the request table by ascending number is the list of requests in the order they were first accepted under their identity, as first accepted, less what sweeps passed |
| `Requests.KeyResolvesIff` | src/indexer/store.rs:1065-1074 | over every run a key resolves if and only if it is the identity or the transaction id of a request on that list, and to such a one |
| `Requests.RequestResolvesIff` | src/indexer/store.rs:523-545 | a given request resolves by its transaction id if and only if it is itself on the list |
| `Requests.StoredRequestResolvesIff` | src/indexer/store.rs:1059-1073 | the same for every stored transaction that decodes as a request |
| `Responses.RunFirstIs` | src/indexer/store.rs:561-575 | over every run the response recorded for a request hash is the first accepted since a sweep last cleared it, removed or not |
| `Responses.FirstIsStoredIff` | src/indexer/store.rs:561-575 | over every run the acceptance behind the response recorded is still stored, as the transaction, block and DAA it names, if and only if its block was not removed since it was recorded; no sweep drops the one and keeps the other |
| `Responses.RunFeedIs` | src/indexer/store.rs:1033-1052 | over every run the feed is the list of requests, newest first and sealed ones left out, each with the response first recorded for its identity, else for its transaction id, else none |
| `Responses.RunDetailIs` | src/indexer/store.rs:1059-1094 | over every run a detail exists if and only if the key addresses a listed request; it shows that request, the response recorded first and every stored response to its identity in order |
| `FeedModel.FeedIsPublic` | src/indexer/store.rs:1033-1051 | the feed holds one row per unsealed request and none for a sealed one, newest first, each with the response filed under its identity, else under its transaction id |
| `Writers.WriteTx` | src/indexer/store.rs:463-498 | the per-transaction loops of apply write exactly the rows and totals derived from the computed ledger |
| `Writers.WriteLedger` | src/indexer/store.rs:481-498 | the ledger loop, in any order of addresses, writes each history row and raises each total once |
| `Writers.WriteSpends` | src/indexer/store.rs:472-479 | the input loop points every outpoint of a non-coinbase transaction at its number |
| `Writers.RollBackTotals` | src/indexer/store.rs:686-696 | the roll-back loop lowers each total once and deletes a row that reaches zero |
| `Writers.EraseTxs` | src/indexer/store.rs:681-708 | the unwind loop removes the listed transactions from last to first and counts those it found |
| `Writers.CollectExpired` | src/indexer/store.rs:756-766 | the ascending scan collects exactly the prefix before its first kept row |
| `Writers.DropAll` | src/indexer/store.rs:767-781 | the expiry loop removes every row derived from the collected transactions and leaves all counters alone |
| `Writers.DropChain` | src/indexer/store.rs:783-800 | the metadata loop drops exactly the blocks below the cutoff from all three chain tables |
| `StoreModel.WriteGroupTxs` | src/indexer/store.rs:461-630 | one group's loop numbers its transactions consecutively and writes ledger and inference rows, reading its own earlier inserts |
| `StoreModel.TakePage` | src/indexer/store.rs:971-985 | the skip-and-stop loop returns row offset + i at place i, at most `limit` rows |
| `StoreModel.CollectFeed` | src/indexer/store.rs:1028-1052 | the feed loop, which passes over sealed requests before counting, returns that slice of the public feed |
| `StoreModel.CollectResponses` | src/indexer/store.rs:1075-1088 | the response loop keeps the entries whose transaction is stored and decodes |
| `StoreModel.PruneInference` | src/indexer/store.rs:802-896 | the inference sweep removes expired requests with both their keys and the responses filed under them, then what no longer resolves |
| `StoreModel.Store.constructor` | src/indexer/store.rs:390-423 | a fresh store is empty |
| `StoreModel.Store.Apply` | src/indexer/store.rs:429-655 | commits exactly the specified database; the reported blocks, transactions, total and checkpoint DAA are the growth of the applied table, of the counter, the new total and the new checkpoint's |
| `StoreModel.Store.UnwindChainBlock` | src/indexer/store.rs:660-719 | commits exactly the unwound tables, touches no inference table and no checkpoint, and returns how many transactions left |
| `StoreModel.Store.ExpireBelow` | src/indexer/store.rs:741-900 | commits exactly the swept tables and returns how many transactions left |
| `StoreModel.Store.AddressHistory` | src/indexer/store.rs:964-987 | returns the address's rows by descending number, `offset` passed over and at most `limit` kept, place by place |
| `StoreModel.Store.InferenceFeed` | src/indexer/store.rs:1023-1053 | returns the unsealed requests by descending number, likewise, each with the response filed under its identity, else under its transaction id |
| `StoreModel.Store.InferenceByTx` | src/indexer/store.rs:1059-1094 | answers exactly when the key resolves, with the request, the response filed under its identity, else under its transaction id, and place by place every stored response to the identity with its decoding |
| `StoreModel.Store.Challenges` | src/indexer/store.rs:1097-1109 | returns the newest challenges, at most `limit` |
| `StagingModel.ResidentIsDistinct` | src/indexer/mod.rs:490-499 | whatever was inserted, no key is resident twice and at most `cap` are |
| `StagingModel.FreshKeyResidence` | src/indexer/mod.rs:490-499 | a fresh key stays resident exactly while it is among the last `cap` fresh insertions, or has been inserted afresh since |
| `StagingModel.Evict` | src/indexer/mod.rs:493-497 | the eviction loop keeps exactly the last `cap` keys, in order, with their values |
| `StagingModel.Bounded.constructor` | src/indexer/mod.rs:482-488 | an empty map with the given capacity |
| `StagingModel.Bounded.Insert` | src/indexer/mod.rs:490-499 | after any insertion the map holds exactly the last min(cap, n) fresh keys, each with its most recent value |
| `StagingModel.Bounded.Get` | src/indexer/mod.rs:501-503 | returns a resident key's most recent value and nothing for any other key |
| `StagingModel.Bounded.Len` | src/indexer/mod.rs:505-507 | the map's size is the number of resident keys |
| `StagingModel.WireIff` | src/indexer/mod.rs:427-472 | a body is read from exactly the transactions that announce it: every field carried, the default for a missing outpoint or script, id non-empty, coinbase flag that of the subnetwork |
| `StagingModel.BodyInsertionsAre` | src/indexer/mod.rs:528-533 | a block's bodies are staged in order under their ids, one for each announced transaction that has an id |
| `StagingModel.Staging.StageBlock` | src/indexer/mod.rs:523-534 | stages the block's DAA if hash and header are there, then every body under its own id, in order |
| `StagingModel.Staging.StageBlocks` | src/indexer/mod.rs:306-322 | fetched blocks are staged in order |
| `StagingModel.BuildGroups` | src/indexer/mod.rs:332-358 | one group per acceptance list in order, holding exactly the staged ids in list order with bodies carrying those ids; staged plus missed equals accepted |
| `StagingModel.FoundIds` | src/indexer/mod.rs:345-350 | the ids of the bodies found are the listed ids that are staged, in order |
| `StagingModel.FoundAre` | src/indexer/mod.rs:345-350 | the bodies found are those staged under the listed ids that have one, place by place |
| `StagingModel.NothingMissedIff` | src/indexer/mod.rs:345-350 | nothing is missed if and only if every listed id is staged, and then the whole list is carried |
| `FollowerModel.Follower.ApplyGroups` | src/indexer/mod.rs:360-391 | applies, counts misses, and sweeps at checkpoint minus window if and only if there is a window, the batch reached beyond it and 900 beyond the last sweep |
| `FollowerModel.Follower.OnVirtualChainChanged` | src/indexer/mod.rs:226-243 | unwinds the removed blocks in the given order, joins, then applies, and counts every listed id it had no body for |
| `FollowerModel.Follower.Backfill` | src/indexer/mod.rs:298-326 | stages the fetched blocks, joins and applies the added ones, counts misses, and unwinds nothing |
| `WindowModel.WindowBoundedIff` | src/indexer/mod.rs:379-391 | after any apply on an orderly chain every stored row is less than window + 900 below the reached DAA if and only if a sweep ran, or every added block with transactions is that recent and so was `window_low_daa` before |
| `WindowModel.RunTracks` | src/indexer/mod.rs:226-243 | every orderly run of notifications and restarts, however deep its reorgs, keeps the coupling and the DAA order along the chain |
| `WindowModel.RunWindowBoundedIff` | src/indexer/mod.rs:360-391 | the exact condition at every notification of every orderly run, across restarts |
| `WindowModel.WindowStaysBounded` | src/indexer/mod.rs:360-391 | so in every shallow run, restarts included, the stored window is bounded after each notification |
| `WindowModel.NoWindowNeverSweeps` | src/indexer/mod.rs:379-384 | with a window of 0 no follower run ever sweeps: the store is that of the removals and applies alone |
| `WindowModel.ReachedIsCheckpoint` | src/indexer/store.rs:638-650 | the checkpoint is the last block of the batch that was not skipped, or the old one |
| `WindowModel.SweepKeepsCheckpoint` | src/indexer/store.rs:741-800 | the sweep an apply triggers never removes the reached block's rows or metadata, sorted or not |
| `WindowModel.DeepReorgEscapesWindow` | src/indexer/mod.rs:379-391 | from a fresh follower: apply and sweep, then a reorg adds an old block and a recent one in order, and the old one stays stored beyond the bound |
| `WindowModel.DeepReorgEscapesLater` | src/indexer/mod.rs:379-391 | the same with the two blocks in two notifications, each recent at its own and no sweep due |
| `BackfillModel.BackfillAgreesIff` | src/indexer/mod.rs:298-326 | the gap-fill, sweep included, leaves the follower as the live path would, whatever the removed and added lists hold, if and only if no indexed removed block holds transactions or returns with some, and checkpoint, cutoff and those blocks' marks come out the same |
| `FollowReorg.TwinSweep` | src/indexer/store.rs:741-800 | sweeping two states that differ by an order-preserving renaming of numbers keeps them so |
| `FollowReorg.ForkFollow` | src/indexer/mod.rs:360-391 | applying a branch with its sweep on a copy of the fork whose counter has moved on reads like applying it on the fork, amounts if and only if the totals were equal |
| `FollowReorg.UnwindSweptWith` | src/indexer/store.rs:660-719 | unwinding a branch whose blocks with transactions a sweep spared leaves exactly the swept fork with the branch's ledgers rolled back in the totals, whatever these hold |
| `FollowReorg.FollowReorgIff` | src/indexer/mod.rs:226-243 | after applying a branch and being reorganised to another, non-empty one, sweeps included, every read but the amounts is as if only the branch's sweep had run, if and only if that sweep spared its blocks with transactions; the amounts too if and only if every address also survives |
| `Incidents.UnresolvedDaaEscapesSweep` | src/indexer/mod.rs:379-391 | a block anywhere in a batch, below the cutoff of the sweep the batch triggers, loses its metadata and can no longer be unwound, and keeps its transactions if and only if one stored before them is at or above the cutoff |
| `Incidents.UnresolvedDaaRun` | src/indexer/mod.rs:407-425 | from a fresh follower: a block, then one whose DAA was not resolved together with one that triggers a sweep; the second stays stored with DAA 0 and removing it undoes nothing |
| `Incidents.SweptBlockStaysCounted` | src/indexer/store.rs:672-675 | an orderly run of a fresh follower: two blocks, the second sweeping the first, then both removed; the log is empty and the first block still counted |
| `Incidents.GapFillRun` | src/indexer/mod.rs:298-326 | a fresh follower with one block of transactions: a gap-fill response that removes it, whatever it adds, never leaves what the live notification would |
| `Incidents.ReacceptedRequestIsLost` | src/indexer/store.rs:525-545 | an orderly run of a fresh follower: a request accepted, removed, accepted again, and swept at its first DAA; its transaction is stored and does not resolve |
| `Incidents.RemovedResponseStaysFirst` | src/indexer/store.rs:561-575 | a fresh follower with one response whose block is removed: nothing is stored and the response is still shown |
| `Keys.BigEndianOrder` | src/indexer/store.rs:308-309 | fixed-width big-endian numbers sort numerically and are injective |
| `Keys.TextKeyInjective` | src/indexer/store.rs:296-310 | outpoint, history and response-list keys are equal only for the same text and number |
| `Keys.TextKeyOrder` | src/indexer/store.rs:304-310 | the keys of one text sort by number |
| `Keys.TextKeyNumber` | src/indexer/store.rs:341-343 | the number is read back from the last eight bytes |
| `Keys.RangeIsFilter` | src/indexer/store.rs:312-322 | the byte range of a text holds exactly that text's keys |
| `Keys.ScanIsFilter` | src/indexer/store.rs:312-339 | a byte-ordered scan of that range lists exactly the text's keys by number |
| `Keys.ChainKeyOrder` | src/indexer/store.rs:324-329 | chain keys sort by DAA first and the DAA is read back from the first eight bytes |
| `Keys.ChainScanMayStop` | src/indexer/store.rs:786-795 | in key order everything after the first key at or above the cutoff is too, so stopping there equals filtering |
| `Keys.HistoryScanInBytes` | src/indexer/store.rs:967-985 | the byte-range scan of the stored history keys lists exactly the address's rows by number |
| `Checksum.StepXor` | src/indexer/address.rs:56-64 | one checksum step is linear over XOR |
| `Checksum.StepZero` | src/indexer/address.rs:56-64 | on 40-bit states its kernel is trivial, so it is injective |
| `Checksum.RegisterXor` | src/indexer/address.rs:55-65 | the register is linear over whole inputs of any length |
| `Checksum.BurstIsDetected` | src/indexer/address.rs:47-66 | changing anything within eight consecutive words changes the checksum, for inputs of any length |
| `Checksum.ChecksumVerifies` | src/indexer/address.rs:68-85 | appending the checksum words to any input makes the checksum zero |
| `Checksum.ComputePolymod` | src/indexer/address.rs:47-66 | the loop computes the register of the whole input, XOR 1 |
| `Regroup.RegroupedShape` | src/indexer/address.rs:28-44 | n bytes give ceil(8n/5) words, all below 32 |
| `Regroup.RegroupedReadsBack` | src/indexer/address.rs:28-44 | reading the words' bits back as bytes gives the input, for any length |
| `Regroup.RegroupedInjective` | src/indexer/address.rs:28-44 | so regrouping loses no information |
| `Regroup.ToWords` | src/indexer/address.rs:28-44 | the loop with the overflowing u32 accumulator gives the words of the five-byte blocks, zero-padded |
| `Hex.ToHex` | src/indexer/inference.rs:177-184 | the loop writes two lower-case digits a byte |
| `Hex.HexRoundTrip` | src/indexer/inference.rs:177-193 | parsing the hex text of any bytes gives them back |
| `Hex.HexTextAt` | src/indexer/inference.rs:177-184 | byte i is written as its high and low lower-case digit at 2i and 2i + 1 |
| `Hex.FromHexIff` | src/indexer/inference.rs:186-193 | a text parses to given bytes if and only if it is two characters a byte, digits of either case or a plus sign before one digit |
| `Address.ComputeCheck` | src/indexer/address.rs:68-85 | splitting the checksum into bytes and regrouping gives its eight 5-bit words |
| `Address.EncodeAddress` | src/indexer/address.rs:88-104 | the loops produce prefix, colon, data and checksum characters |
| `Address.AddressReadsBack` | src/indexer/address.rs:88-104 | reading an address back, character by character, gives the version and payload it was made from |
| `Address.AddressInjective` | src/indexer/address.rs:88-104 | so under one prefix an address determines version and payload |
| `WalletVector.WalletAddress` | src/indexer/address.rs:136-148 | the address of the key 11...11 under the simnet prefix is, character by character, the one the wallet's encoder gives |
| `Address.AddressVerifies` | src/indexer/address.rs:68-104 | every encoded address has checksum zero |
| `Address.DamagedAddressFails` | src/indexer/address.rs:47-104 | damage to at most eight neighbouring words of an address never verifies |
| `Address.ScriptToAddressIff` | src/indexer/address.rs:106-121 | a script has an address if and only if it is 20 p ac with 32 bytes p, 21 p ab with 33, or aa 20 p 87 with 32, and then the one of version 0, 1 or 8 and payload p |
| `Address.ScriptToAddressInjective` | src/indexer/address.rs:109-130 | for a fixed prefix an address determines the script bytes |
| `Address.NetworkPrefix` | src/indexer/address.rs:13-26 | the prefix is decided by which network the name mentions first in order, whatever its case |
| `Address.IndexedAddressIsValid` | src/api/dto.rs:252-268 | every address derived under any network name's prefix passes `validate_address` |
| `Address.ValidIff` | src/api/dto.rs:252-268 | the gate passes exactly a known prefix, a colon and a non-empty text over the charset, and reports a missing colon and an unknown prefix exactly when they are the fault |
| `Address.ValidIsAscii` | src/api/dto.rs:252-268 | what the gate lets through is ASCII, so 0xFF-free |
| `Payload.DecodesEncoded` | src/indexer/inference.rs:294-304 | decoding inverts the encoder on every well-formed response |
| `Payload.BodyIffWellFormed` | src/indexer/inference.rs:293-326 | a payload yields a body if and only if it is a 174-byte head, a body extension of at most 48 KiB and nothing or one trace extension, an empty body needing the trace |
| `Payload.ParseIsUnique` | src/indexer/inference.rs:293-326 | head, body and trace are determined by the bytes |
| `Payload.ResponseRoundTrip` | src/indexer/inference.rs:282-317 | every field, the responder key and the body survive encoding and decoding |
| `Payload.V1FieldsFromHead` | src/indexer/inference.rs:290-313 | the v1 fields depend on the first 78 bytes only |
| `Payload.DecodeResponseIff` | src/indexer/inference.rs:282-317 | what is decoded from any payload: nothing below 78 bytes, else the fields those bytes spell, a responder if and only if 174 are reached, a body if and only if well-formed with it |
| `Payload.RecipientCountIff` | src/indexer/inference.rs:69-92 | recipients are counted if and only if magic, version, number, length and all pairs of keys are right; comparing neighbours suffices |
| `Payload.RecipientsAreDistinct` | src/indexer/inference.rs:69-92 | so the recipients counted are pairwise different |
| `Overlay.PendingRowIsApplied` | src/indexer/mempool.rs:147-171 | each pending row is the row apply would write on the same store, for exactly the same addresses, whatever number and block it gets |
| `Overlay.PendingRowTells` | src/indexer/mempool.rs:164-171 | a pending row tells received less spent if and only if the difference fits 64 signed bits, and exists if and only if the address is touched |
| `Overlay.PendingRowsAre` | src/indexer/mempool.rs:136-171 | an address's pending rows are one per pending transaction that touches it, in mempool order |
| `Overlay.SpenderIsLast` | src/indexer/mempool.rs:138-145 | the spender shown for an outpoint is the last pending non-coinbase transaction with an input naming it |
| `Overlay.ComputePending` | src/indexer/mempool.rs:147-163 | the overlay's own loops over `tx_by_id` compute the ledger apply would |
| `Overlay.BuildSnapshot` | src/indexer/mempool.rs:129-179 | the snapshot holds the count, the last spender of each outpoint and each address's pending rows in mempool order |
| `NodeClient.RunCorrelates` | src/node.rs:319-353 | over every run each command taken is either waiting under its own id or answered, never both; an answer from the node carries that id; ids never repeat |
| `NodeClient.ReconnectLeavesNobody` | src/node.rs:328-348 | when `serve` returns for a reconnect nobody waits and everybody was answered |
| `NodeClient.RunDelivers` | src/node.rs:319-372 | over every run the connection serves until the first event that ends it, which decides between reconnect and shutdown; until then every command is taken and exactly the notifications with room, block notifications without a block left out, reach the indexer in order |
| `NodeClient.AnswersStayFinal` | src/node.rs:357-393 | an answer once given never changes for the rest of the run |
| `NodeClient.NotificationsTakeNobody` | src/node.rs:364-372 | deleting every notification from a run, whatever ids they carry, changes no answer, no waiting caller and not when the connection ended |
| `NodeClient.AnswerIsFirstReply` | src/node.rs:357-385 | over every run a caller is answered with a message's body if and only if that message is the first response with the caller's own id after its command; any other answer is unreachable |
| `NodeClient.Connection.DrainPending` | src/node.rs:387-393 | draining in any order tells every waiting caller the connection is lost and empties the map |
| `NodeClient.Connection.TakeCommand` | src/node.rs:323-334 | a command is numbered and remembered, or fails everybody if it cannot be sent |
| `NodeClient.Connection.RouteMessage` | src/node.rs:357-385 | routes one message as the transition system does |
| `NodeClient.Connection.Serve` | src/node.rs:298-353 | the loop realises the transition system on every sequence of events, and forwards and takes exactly what `RunDelivers` says |
| `Wiring.RunEncodable` | src/indexer/store.rs:304-310 | in every run on any network the history keys are ASCII addresses and encodable, while numbers fit eight bytes |
| `Wiring.RunHistoryScan` | src/indexer/store.rs:964-987 | in every run and for every address the API lets through, the byte range scan lists exactly its rows by number |
| `Wiring.PaidAddressIsListed` | src/indexer/store.rs:1216-1227 | in every run on a network a stored transaction with an output in a standard form is in the history of the address of that version and payload under the network's prefix |
| `Wiring.SentIsReceived` | src/indexer/inference.rs:309-317 | a response payload is read back field by field: request hash and key in hex, the window end as a number, content id, length and body |
| `Wiring.ResponseReadIff` | src/indexer/inference.rs:282-317 | what the store reads from any hex payload: each field from its own bytes, a responder from 174 bytes on, a body exactly when well-formed |
| `Wiring.StoredResponseIsRead` | src/indexer/store.rs:1075-1088 | in every run a stored transaction carrying it is among the responses listed for the request it names, with all of that |

## Left out

- redb, bincode and files: write transactions are all-or-nothing and infallible, rows round-trip; store errors are not modelled, and a restart is the same store with the last sweep forgotten.
- Rows written by version 0.3.0 and their compatibility decoding; every run starts from a fresh store.
- Decoding of requests, challenges and coinbase capability markers, request identities (BLAKE2b), base58 content ids and UTF-8 prompts: parameters (`Codec`, `Outside`), and every store result holds for any such decoding. `Payload` keeps hashes and the window end as bytes; `Wiring` reads them.
- Counts, sequence numbers, `next_tx_num`, `total_txs` and request ids are unbounded naturals; only sums of sompi, which the source keeps in 64 bits, wrap. `last_expire_daa + 900` is unbounded too.
- Reorg round trips for the inference tables: the code does not unwind them, so none is claimed.
- Byte keys are tuples in `Tables`; `Keys` relates the two for history, outpoint, response-list and chain keys. The capability key (model, 0xFF, public key) is not related.
- `set_checkpoint` (unused), `is_applied` and `chain_blocks`: easy reads. The grouping of `capabilities` by model: its table is `RunSeenIs`.
- Runs.UnwindNeverSaturates: claimed for an address whose sum of credits stayed below 2^64; past that the subtraction does saturate (`OverflowLosesReceived`).
- Runs.ReceivedIsBooked: claimed for an address whose sum of credits stayed below 2^64, likewise; `CountsAreBooked` gives the upper bound that holds always.
- Accounts.ReceivedIsExactIff: claimed for an address whose sum of credits stayed below 2^64, likewise.
- WindowModel.WindowStaysBounded: claimed for reorgs no deeper than the window of the last sweep, because beyond that it fails (`DeepReorgEscapesWindow`); the condition without that assumption is `RunWindowBoundedIff`.
- The calls of resolve_daa and of the gap-fill to the node: their results are parameters.
- Hex text with non-ASCII characters, where the source's byte slicing can panic; the leading '+' that the parser accepts is modelled.
- gRPC transport, connection timeouts, backoff, caller timeouts and task scheduling; opening a stream that fails before `serve`'s loop starts, and the `Connected` notification.
- Rendering of pending transactions, and the lock around the installed snapshot.
- HTTP handlers, JSON, CORS, configuration, error mapping, the response cache, `/ipfs` and market proxies, the model-name registry.
