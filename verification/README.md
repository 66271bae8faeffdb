# Verified model of the Stellar 8004 registries and their indexer

Three Soroban contracts implement EIP-8004 on Stellar: an identity registry (agents as NFTs with a URI, a
wallet slot and indexed metadata), a reputation registry (feedback, revocations, responses, a fixed-point
summary) and a validation registry (requests and responses). An indexer reads their events from Stellar RPC
and keeps a SQL projection of them; a web API serves that projection page by page. This project models the
contracts, the event stream, the indexer and its resolver, the address checker and the discovery pagination in
Dafny, and proves what each promises, ending with the promise that joins them: **the tables equal the
registries' state**, for every history of calls, every lawful RPC and every way a run can die on the way.

## How the model is built

| part | modules |
|---|---|
| the contracts as state functions with their invariants | `Identity`, `Reputation`, `Validation`, `CountedIndex` |
| the contracts as they run, storage changed in place, proved against those functions | `IdentityRegistry`, `ReputationRegistry`, `ValidationRegistry` |
| the two summaries | `Summary`, `Selection`, `ValidationSummary`, `Arithmetic` |
| one history of calls over the three contracts, the event log it publishes, and whose calls made what is stored | `Events`, `Chain`, `Provenance` |
| the tables and the one SQL statement per event | `Tables`, `Columns` |
| agreement of tables and contracts, and the end-to-end theorem | `Projection`, `Dependents`, `EndToEnd` |
| the writer: batches, rollback and replay, dead letters | `Writer`, `Store` |
| the scan: RPC windows, pages, the held ledger, deferrals, checkpoints, ignored events | `Rpc`, `Ledgers`, `Scan`, `Feed` |
| whole runs, and that what they ask for can be had | `Indexer`, `Worker`, `Attainable` |
| many runs at once: lock, takeover, crash, their writes | `Locks`, `Fencing`, `Fleet` |
| stale, repeated and partial writes | `Guards`, `Recovery`, `Stale`, `Streams`, `Healing`, `Replays` |
| URI resolution | `Resolver` |
| StrKey addresses: base32, CRC16-XMODEM, error detection | `Bits`, `Base32`, `Crc`, `StrKey` |
| keyset pagination, cursors and the searches they are bound to | `Discovery`, `Json`, `Base64`, `Cursor`, `Search` |

A contract call is a function from state to new state and events; a failed call changes nothing and publishes
nothing. `Chain.WorldAt(chain, n)` is the state of the three registries after n calls, `Chain.Between` the events
one contract published in a stretch of calls. `Projection.Projected` says that the tables hold the registries'
state at given calls, and that no guard column is ahead of them. `Healing.Healable` weakens it to what a dead run
leaves: tables that differ from the registries at the checkpoints only by later events written early.
`Indexer.Faithful` and `Indexer.Sound` are the two at the saved checkpoints. Methods and classes follow code that works by
changing state; each is proved against a function of its inputs or old state, and the laws are proved about that
function.

Assumptions: every RPC reply obeys the window rules the indexer itself relies on (`Rpc.LawfulServer`); nodes may
lag, fail and differ from call to call. What a contract publishes may hold, in any number and anywhere, events that
are not the registry's (approvals, ownership transfers); its registry's own are the history's, and readable
(`Indexer.Serves`, `Feed.Carries`). Metadata is valid UTF-8 (the indexer decodes lossily). An address is any
text of 56 characters. Times are integers: the stored text layout keeps text order equal to time order. Owner ids
of runs are fresh, and one clock serves all runs. Each contract call sits in one ledger and ledgers close in order.

Where the code does not do what its comments promise, the model keeps the code's behaviour, lemmas give an input
that shows it, and a theorem says exactly when the promise holds:

- A stale writer that repeats any events of a history already indexed is harmless exactly when, in every cell, the
  last of them that counts (a write of an unguarded column, or one of the guard's own ledger) carries the present value
  (`Replays.StaleHistory`); a page without wallet or metadata events can still clear a wallet through a transfer
  (`Stale.StaleTransferClears`).
- Indexing again, from any earlier calls and in any batches, changes no column but the resolver's, and keeps a resolved
  document exactly when the events hold no other URI of the ledger of the present one (`Replays.HistoryReplay`,
  `Stale.ReplayResetsDocument`).
- The deferral count is that of the present checkpoint exactly when no clamp since the last page was taken at a
  nonzero count (`Fencing.CountIsDeferralsHere`, `Fencing.SkipArmedByClamp`).
- The summary's overflow check passes in every order of the feedback exactly when the positive and the negative
  values each stay in range by themselves (`Summary.FitsWhenSignsFit`, `Summary.OrderMatters`), and repeated clients
  leave it alone exactly when they have no wanted feedback (`Summary.RepeatsCount`).
- A cursor continues another search exactly when two of `text`, `trust` and `x402` are given or the one free text reads
  as itself and a further parameter (`Search.CursorBinds`, `Search.Collision`).
- Runs may write ahead of the checkpoints at any time, but between another's write of a page and its save they may
  repeat that page's events exactly when that is harmless (`Fleet.FleetStaysSound`, `Fleet.RepeatBeforeSave`,
  `Fleet.StrayBeforeSave`).

## Model

| member | source | states |
|---|---|---|
| `EndToEnd.TablesFollowRegistries` | webapp/apps/indexer/src/indexer.ts:75-126 | for every history and every lawful sequence of batches (any contract, any sizes, dependents never past identity) no write fails and the tables equal the registries' state at the calls reached: owner, wallet, URI, metadata, feedback with revocation, responses numbered 1..count, validations |
| `EndToEnd.BatchProjects` | webapp/apps/indexer/src/db.ts:206-335 | one batch of any contract in the writer's order succeeds on projected tables and leaves them projected further on |
| `EndToEnd.EmptyIsProjected` | webapp/packages/d1/migrations/0001_init.sql:19-102 | empty tables hold the registries' initial state |
| `EndToEnd.WholeHistoryIndexed` | webapp/apps/indexer/src/indexer.ts:105-124 | from empty tables, indexing any whole history, identity first, makes the tables equal to the registries' last state |
| `Projection.AgentsRead` | webapp/apps/indexer/src/db.ts:207-223 | what equal means for agents: the same agents, each with its owner, URI, wallet and every other metadata value as the contract's readers give them |
| `Projection.FeedbackReads` | webapp/apps/indexer/src/db.ts:224-236 | the same feedback, value, decimals, tags and revocation; under each, responses numbered 1 to the contract's count, each number once |
| `Projection.ValidationsRead` | webapp/apps/indexer/src/db.ts:237-243 | the same requests, each with its agent, validator and, once given, its answer |
| `Projection.IdentityCallApplied` | webapp/apps/indexer/src/db.ts:250-273 | the events of any successful identity call, its registration moved first, take the agent tables from the state before the call to the state after it |
| `Projection.IdentityBatch` | webapp/apps/indexer/src/indexer.ts:286-345 | any stretch of identity calls written as one batch, registrations first, ends in the registry's state |
| `Projection.PagingIndependence` | webapp/apps/indexer/src/chain/events.ts:14-19 | a stretch split at any call and written as two reordered batches gives exactly the tables of one batch |
| `Projection.BatchesCompose` | webapp/apps/indexer/src/chain/events.ts:13-19 | reordering the concatenation of two batches equals writing the reordered batches one after the other, failures included, when the later registrations are of agents the earlier events do not concern |
| `Tables.DelayRegistration` | webapp/apps/indexer/src/chain/events.ts:14-19 | a registration commutes past any events about other agents: same tables or the same failure |
| `Dependents.ReputationCallApplied` | webapp/apps/indexer/src/db.ts:274-309 | every successful feedback, revocation or response call is written without failure and its tables match the contract's new state |
| `Dependents.AppendMatches` | webapp/apps/indexer/src/db.ts:231-236 | MAX + 1 gives a response the contract's new response count, so numbers stay 1..count without repetition |
| `Dependents.ValidationCallApplied` | webapp/apps/indexer/src/db.ts:310-334 | every successful request or response call is written without failure and its row matches the contract's status |
| `Indexer.IndexContracts` | webapp/apps/indexer/src/indexer.ts:83-126 | over every lawful RPC, whatever else the contracts publish: a run refuses exactly when a checkpoint is missing or aged without the opt-in (`Indexer.UnclampedMeans`); each contract scanned ends at its head or for a reason that held (the call that failed, the clock at or past the deadline, the node that was behind), and contracts are left out only when time ran out; with time and nodes at the head every contract reaches the latest ledger; however it ends, thrown errors included, checkpoints only advance, dependents stay behind identity (clamps included), no dead letter is lost and, unclamped, sound tables stay sound with none added; a finished unclamped run keeps tables equal to the registries equal to them; holding the lock and without faults it does not throw |
| `Indexer.ContractReaches` | webapp/apps/indexer/src/indexer.ts:106-123 | a contract of a finished run whose calls come before the deadline and are answered by nodes at its head (the latest ledger, or where identity got) reaches it unless it deferred |
| `Indexer.RunReaches` | webapp/apps/indexer/src/indexer.ts:105-125 | where every call a contract's scan may need comes before the deadline and is answered by a node at the head, and nothing was deferred, all contracts are scanned to the latest ledger, in time |
| `Indexer.SoundBecomesFaithful` | webapp/apps/indexer/src/indexer.ts:75-82 | once the checkpoints pass everything dead runs wrote ahead, the tables equal the registries |
| `Indexer.RunContract` | webapp/apps/indexer/src/indexer.ts:105-124 | over every lawful RPC, ignored events included, one contract of a run keeps what the run keeps, also when its scan throws; it ends for a reason that held, within its number of calls; unclamped over sound tables it neither defers nor dead-letters anything |
| `Feed.OutcomeOfOwn` | webapp/apps/indexer/src/indexer.ts:260-284 | a scan of pages filled up with ignored events leaves the tables, deferral and checkpoint that scanning the registry's own events in the same cuts leaves |
| `Feed.WindowParsed` | webapp/apps/indexer/src/indexer.ts:260-266 | of a range of ledgers exactly the registry's own events are written |
| `Indexer.ScanLeavesNoLetters` | webapp/apps/indexer/src/indexer.ts:223-227 | an unclamped scan of a lawful history over sound tables dead-letters nothing, however it ends |
| `Indexer.ScanHeals` | webapp/apps/indexer/src/indexer.ts:118-123 | a finished unclamped scan keeps sound tables sound at its new checkpoint, and a lawful history never defers it |
| `Indexer.BrokenScanHeals` | webapp/apps/indexer/src/indexer.ts:297-306 | a scan that throws anywhere leaves sound tables, ahead of their checkpoint by no more than its head |
| `Indexer.CutsHeal` | webapp/apps/indexer/src/indexer.ts:205-236 | any division of a contract's ledgers into complete-ledger writes succeeds over healable tables and leaves them healable further on |
| `Ledgers.WindowIsBetween` | webapp/apps/indexer/src/indexer.ts:179-181 | the events of a range of ledgers are the events of the calls those ledgers hold: complete ledgers never split a call |
| `Indexer.StaysBehind` | webapp/apps/indexer/src/indexer.ts:121-123 | whatever checkpoint a scan leaves, clamped or not, dependents are at or below identity |
| `Indexer.UnclampedMeans` | webapp/apps/indexer/src/indexer.ts:94-101 | no checkpoint is older than retention exactly when a scan of any contract, to whatever head, starts at its own checkpoint; otherwise it starts at the first ledger kept |
| `Indexer.MovedForward` | webapp/apps/indexer/src/indexer.ts:121-123 | what runs promise of checkpoints: each is where it was or later, and dependents that were behind identity still are |
| `Attainable.NothingHinders` | webapp/apps/indexer/src/indexer.ts:105-125 | for every history, health answer and checkpoints there are lawful nodes and times that let every contract reach the latest ledger, so what runs promise is about some runs |
| `Attainable.KeepingUpIsLawful` | webapp/apps/indexer/src/indexer.ts:176-221 | a node that answers every call, ten thousand ledgers and a hundred events at a time, is lawful for any feed |
| `Attainable.StartIsFaithful` | webapp/packages/d1/migrations/0001_init.sql:104-113 | empty tables with checkpoints at ledger 0 equal the registries before their first call |
| `Worker.RunOnce` | webapp/apps/indexer/src/index.ts:53-91 | skips without a trace exactly when another run holds the lock and acquired it at most 180000 ms before; otherwise indexes, resolves and releases its own lock on every path, database errors while resolving included; unclamped, sound tables stay sound on every path; a completed run keeps all that indexing promises, resolver columns aside: reasons, progress to the latest ledger, tables equal to the registries |
| `Scan.IndexContract` | webapp/apps/indexer/src/indexer.ts:137-252 | for every lawful RPC, clock and fault: the loop ends within one call per window and per full page of events; the ledgers after the base up to the result are written once each, in order, as complete ledgers; the checkpoint is where the scan ended; only a deferral adds to the count; the dead letters are those of these writes and of a clamp; it ends before the head only because the call it made last failed, the clock it read was at or past the deadline, the node that answered last was behind, or a write deferred; a thrown error adds nothing and leaves those writes and at most a part of one more; with the lock held and no faults it finishes |
| `Scan.SmoothReaches` | webapp/apps/indexer/src/indexer.ts:184-248 | when every call a scan may make comes before the deadline and is answered by a node at or past the head, only a deferral keeps it from the head |
| `Scan.ScanPage` | webapp/apps/indexer/src/indexer.ts:205-248 | one page writes exactly the events of the ledgers it completes, saves, and moves on within the window, to the next window, or stops behind a lagging node; each step shortens (ledgers left, events left) |
| `Scan.WritePage` | webapp/apps/indexer/src/indexer.ts:223-237 | skipping is armed only at five stored deferrals; progress resets the count, a deferral adds one and stores it; tables and dead letters are those of the page's write, or of its first part when it throws |
| `Scan.WindowScanned` | webapp/apps/indexer/src/indexer.ts:205-212 | a short page, or one that ran past the window, proves the window scanned up to the node's latest ledger, and held plus new events are exactly those ledgers |
| `Scan.LedgerHeld` | webapp/apps/indexer/src/indexer.ts:214-219 | a full page inside the window readies exactly the complete ledgers and holds back the ledger it ended in |
| `Scan.PageRead` | webapp/apps/indexer/src/test-helpers.ts:131-135 | what any lawful reply says about the stream: an unbroken stretch from the cursor, complete unless it is full |
| `Scan.WindowsCount` | webapp/apps/indexer/src/indexer.ts:176-236 | a scan takes as many windows of ten thousand ledgers as it takes to cover its ledgers |
| `Scan.FirstRequest` | webapp/apps/indexer/src/indexer.ts:177-192 | the first call asks for the first ten thousand ledgers after the base, or up to the head |
| `Store.Database.WriteEvents` | webapp/apps/indexer/src/indexer.ts:254-345 | chunks of 100, batch, rollback, replay and orphan checks give the tables, the deferral and the dead letters of playing the statements one at a time, registrations first; a thrown error leaves a prefix of that play, and the letters of its complete chunks and of the statements after them |
| `Store.Database.WriteChunk` | webapp/apps/indexer/src/indexer.ts:290-343 | one chunk does what its statements do alone, whether its batch commits or rolls back, dead letters included, also when it throws part of the way |
| `Store.Database.Batch` | webapp/apps/indexer/src/indexer.ts:295-297 | all statements or none |
| `Store.Database.ReplayOneByOne` | webapp/apps/indexer/src/indexer.ts:299-336 | after a rollback only the failing event defers or is skipped and dead-lettered with the reason its failure calls for |
| `Store.Database.Interpret` | webapp/apps/indexer/src/indexer.ts:260-284 | parsed events go on in order; recognised but unreadable ones are dead-lettered; unrelated ones are ignored |
| `Store.Database.RecordOrphans` | webapp/apps/indexer/src/db.ts:161-204 | exactly the updates whose row does not exist are dead-lettered as missing a parent |
| `Writer.ChunksDoNotShow` | webapp/apps/indexer/src/indexer.ts:290-296 | chunk boundaries change neither the tables nor whether the stream stops |
| `Writer.CommittedBatch` | webapp/apps/indexer/src/indexer.ts:295-301 | a batch that commits did what its statements do one by one |
| `Writer.LetterOfFailure` | webapp/apps/indexer/src/indexer.ts:301-335 | exactly which events break a constraint; skipped, one whose agent or feedback is missing leaves the retryable letter, any other the nonretryable one, and the tables stay; unskipped, the write stops |
| `Writer.AfterEachHundred` | webapp/apps/indexer/src/indexer.ts:289-345 | updates that found no row are looked for after each hundred events, in the tables as they then are, and after the last |
| `Store.Database.AcquireLock` | webapp/apps/indexer/src/db.ts:24-35 | takes the lock exactly when it is free or acquired more than 180000 ms before; `Fencing.StartTakes` and `Fencing.LockFreesItself` say what that means for runs |
| `Store.Database.ReleaseLock` | webapp/apps/indexer/src/db.ts:38-43 | deletes the lock only when the caller owns it, which `Fencing.LostRunStaysHarmless` rests on |
| `Store.Database.SaveCheckpoint` | webapp/apps/indexer/src/db.ts:77-105 | refreshes the lock and moves the checkpoint together, only for the owner and never backwards, and tells the two refusals apart; `Fencing.CheckpointsOnlyAdvance` and `Fencing.OnlyHolderMoves` rest on it |
| `Fencing.StepKeepsInv` | webapp/apps/indexer/src/indexer.ts:90-124 | every atomic step of any run keeps dependents behind identity and the lock's holder informed of the checkpoints |
| `Fencing.CheckpointsOnlyAdvance` | webapp/apps/indexer/src/db.ts:84-105 | over every interleaving of runs, takeovers and crashes each last_ledger never decreases and no dependent passes identity |
| `Fencing.OnlyHolderMoves` | webapp/apps/indexer/src/db.ts:91-96 | only the current owner of the lock changes a checkpoint |
| `Fencing.LostRunStaysHarmless` | webapp/apps/indexer/src/db.ts:37-43 | a run that lost the lock never changes a checkpoint or its successor's lock again |
| `Fencing.LiveHolderKeepsLock` | webapp/apps/indexer/src/db.ts:20-32 | a holder that has not left and never went more than LOCK_STALE_MS without acquiring or saving keeps the lock |
| `Fencing.StartTakes` | webapp/apps/indexer/src/db.ts:24-35 | a new run holds the lock exactly when it was free or acquired more than 180000 ms before, and otherwise changes nothing |
| `Fencing.LockFreesItself` | webapp/apps/indexer/src/db.ts:20-35 | after any steps of any runs, crashes included, a new run that starts once the lock is more than 180000 ms old holds it and finds the checkpoints as they were left |
| `Fencing.SaveRefreshes` | webapp/apps/indexer/src/db.ts:77-105 | what each save of the holder writes: the page, the clamp with its count, or one more deferral; and the lock as of now |
| `Fencing.SavedHolderKeepsLock` | webapp/apps/indexer/src/db.ts:71-105 | for 180000 ms after a save no other run takes the lock from a holder that has not left |
| `Fencing.MaySave` | webapp/apps/indexer/src/indexer.ts:155-236 | when a scanning run may save a page, a deferral or a clamp, and when it goes on to the next contract |
| `Fencing.CopyFenceHolds` | webapp/packages/d1/migrations/0001_init.sql:120-122 | until its year-9999 time no run takes the copy fence, so no run starts and nothing changes |
| `Fencing.CountIsSavedDeferrals` | webapp/apps/indexer/src/indexer.ts:221-236 | over every interleaving, clamps included, the stored count is the number of deferrals saved since the contract's last page |
| `Fencing.CountIsDeferralsHere` | webapp/apps/indexer/src/indexer.ts:42-44 | it is the number of deferrals at the present checkpoint exactly when no clamp since the last page was taken at a nonzero count, and greater otherwise |
| `Fencing.SkipArmedByClamp` | webapp/apps/indexer/src/indexer.ts:171-173 | a behaviour from zero counts that ends with skipping armed at a checkpoint where nothing was deferred |
| `Fleet.FleetStaysSound` | webapp/apps/indexer/src/indexer.ts:75-82 | over every interleaving of runs, takeovers, crashes, pages written and, steps later, saved, writes ahead of the checkpoints (past the page that waits for its save) and harmless repeats of any page written before, without clamps, sound tables stay sound |
| `Fleet.WritesThenSaves` | webapp/apps/indexer/src/indexer.ts:205-236 | in any such fleet the holder of the lock can write its next complete ledgers and save them later; the tables hold that write and the checkpoint is where it reached |
| `Fleet.MayWriteAhead` | webapp/apps/indexer/src/indexer.ts:297-306 | any events of a contract past its checkpoint, a dependent's no further than identity, may be written ahead in any order |
| `Fleet.RepeatBeforeSave` | webapp/apps/indexer/src/indexer.ts:224-236 | over tables equal to the registries, after a page is written and before its save, events of that page written again leave the tables equal to the registries at the new checkpoint exactly when they are harmless |
| `Fleet.StrayBeforeSave` | webapp/apps/indexer/src/indexer.ts:224-236 | a history, a page and one of its events past the stored checkpoint that, written again before the save, leaves tables neither equal to the registries nor repairable by later runs |
| `Guards.NewestEventWins` | webapp/apps/indexer/src/db.ts:206-242 | for owner, URI, revocation and validation response under any statements in any order over an existing row: the guard ledger never decreases and covers every applied event, and the value is the one it had or that of an applied event of the greatest ledger |
| `Guards.NewestEventWinsNewRow` | webapp/apps/indexer/src/db.ts:206-242 | the same from the insertion on for a row inserted among the statements |
| `Guards.OrderDoesNotMatter` | webapp/apps/indexer/src/db.ts:245-249 | two orders of the same events, with any repetitions, leave the same cell when events of one ledger agree |
| `Stale.StaleCellExactly` | webapp/apps/indexer/src/db.ts:218-223 | in any column, events of a run written again in any order and number leave the cell it led to unchanged exactly when the last of them that counts carries the present value |
| `Stale.StaleRun` | webapp/apps/indexer/src/db.ts:206-243 | over the tables a run left, any of its events written again succeed; they change no table exactly when every cell is settled so, keep response numbers, and restart an agent's resolver columns exactly when another URI of its ledger is among them |
| `Stale.StaleOver` | webapp/apps/indexer/src/db.ts:245-249 | the same over any tables that have taken the events in, whatever was written since |
| `Replays.StaleHistory` | webapp/apps/indexer/src/db.ts:245-249 | over the tables any lawful sequence of batches left, stale writers repeat any events of any of its batches, of any contracts, in any order and number: all succeed; they change no table, and the tables still hold the registries' state, exactly when they are harmless; pages without wallet or metadata events whose transfers are older than their agents' last leave every wallet and all metadata alone |
| `Replays.ProjectedExactly` | webapp/apps/indexer/src/db.ts:245-249 | tables that hold the registries' state hold it after repeated events exactly when these are harmless |
| `Stale.StaleTransferClears` | webapp/apps/indexer/src/db.ts:224-227 | an agent's last transfer written again clears a wallet set after it, so that condition on transfers is needed |
| `Stale.StalePageSparesWallets` | webapp/apps/indexer/src/db.ts:245-249 | a repeated page without wallet or metadata events, its transfers older than their agents' last, leaves wallets and metadata as they are |
| `Stale.ReplayKeepsDocuments` | webapp/apps/indexer/src/db.ts:209-217 | a run indexed again changes no table and keeps each agent's resolver columns exactly when the run holds no other URI of the ledger of its present one; otherwise they start afresh |
| `Stale.ReplayResetsDocument` | webapp/apps/indexer/src/db.ts:209-217 | an agent given two URIs in one ledger loses its document when they are indexed again |
| `Replays.HistoryReplay` | webapp/apps/indexer/src/db.ts:245-249 | indexing again from any earlier calls to where a lawful sequence of batches got, any of the contracts, in any other batches and any interleaving: no table changes, the tables hold the registries' state, and documents stay under that condition |
| `Columns.CellMoves` | webapp/apps/indexer/src/db.ts:206-243 | each statement moves each column of each row by its event's effect and no other way; a transfer clears wallet and metadata exactly when its guard lets it through |
| `Recovery.Converge` | webapp/apps/indexer/src/db.ts:245-249 | two cells brought through one run in ledger order end equal, if the second is not ahead of the run's end and differs only in what the run rewrites |
| `Recovery.RunRepairs` | webapp/apps/indexer/src/db.ts:245-249 | after any statements drawn from a run's events, in any order, repeated, some failing, the run in ledger order succeeds and leaves every column as if nothing had come before |
| `Recovery.ReplayConverges` | webapp/apps/indexer/src/db.ts:206-243 | indexing the last events of a run again over the tables it left changes no column but the resolver's, response numbers included (`Stale.ReplayKeepsDocuments` for those) |
| `Recovery.NumbersStayDense` | webapp/apps/indexer/src/db.ts:231-236 | response numbers stay exactly 1..n, each once, under any statements in any order |
| `Healing.BatchHeals` | webapp/apps/indexer/src/db.ts:245-249 | over tables with later events written early, any number of times and in any order, every batch from the checkpoint succeeds and leaves healable tables further on |
| `Healing.DeadRunIsHealable` | webapp/apps/indexer/src/indexer.ts:79-82 | any writes of a contract's next events, as far as they succeed or until one stops the writer, leave healable tables |
| `Healing.HealedIsProjected` | webapp/apps/indexer/src/db.ts:245-249 | healable tables with nothing left ahead equal the registries, response numbers included |
| `Healing.CrashRecovered` | webapp/apps/indexer/src/indexer.ts:75-82 | over tables equal to the registries, after any writes of a contract's next events, indexing those ledgers makes them equal again |
| `Healing.NearStep` | webapp/apps/indexer/src/db.ts:206-243 | indexing in order the first part of what was written early leaves each cell near the clean one for what is left |
| `Streams.BatchOrderly` | webapp/apps/indexer/src/indexer.ts:286-289 | every batch of a lawful history is in ledger order behind its registrations, finds every row it updates, and inserts no row twice |
| `Streams.NoDeadLetters` | webapp/apps/indexer/src/db.ts:156-204 | no event of a lawful history is deferred, skipped, unreadable or left without its row by an undisturbed indexer |
| `Resolver.DocumentsAlwaysFit` | webapp/apps/indexer/src/resolve.ts:91-140 | over every interleaving of indexing and any number of resolvers, a stored document was fetched for the URI now on its row |
| `Resolver.TriesAlwaysSpaced` | webapp/apps/indexer/src/resolve.ts:46-74 | under the lock each URI version is fetched at most five times, the next try at least 2^attempts minutes after the last |
| `Resolver.VersionsAndResolver` | webapp/apps/indexer/src/db.ts:209-217 | an event keeps an agent's URI version and resolver columns together or starts both afresh |
| `Resolver.TryLeaves` | webapp/apps/indexer/src/resolve.ts:63-86 | a try that returned a document leaves exactly it, no attempts, nothing pending; one that returned none counts, and the fifth is the last |
| `Resolver.FetchedIsStored` | webapp/apps/indexer/src/resolve.ts:91-140 | a document fetched for the URI still on the row is stored; for a URI that moved on, or an agent that is gone, nothing is |
| `Resolver.DueExactly` | webapp/apps/indexer/src/resolve.ts:46-57 | which agents are due: pending, with a URI, no document, under five tries, the last of them 2, 4, 8 or 16 minutes ago by their number |
| `Resolver.AnyDueSelected` | webapp/apps/indexer/src/resolve.ts:46-57 | any distinct due agents may be what a selection returns |
| `Resolver.NothingTriedYet` | webapp/apps/indexer/src/db.ts:206-217 | tables whose agents were never tried are where both promises start |
| `Resolver.DueAgain` | webapp/apps/indexer/src/resolve.ts:46-57 | after a try an agent is due again exactly when it kept no document, made fewer than five tries, and 2^tries minutes have passed |
| `Resolver.DueWhenNew` | webapp/apps/indexer/src/db.ts:207-217 | an event that brings a new agent or URI makes it due at once exactly when the URI is not empty |
| `Resolver.BackoffDoubles` | webapp/apps/indexer/src/resolve.ts:46-57 | one minute before doubling, then 2, 4, 8 and 16 |
| `Resolver.ResolvePending` | webapp/apps/indexer/src/resolve.ts:40-89 | rounds of five, recorded together and stored one by one, leave each agent as if tried alone, agents past the deadline untouched, and the counters exact; a round that cannot be recorded throws and leaves the rounds before it |
| `Identity.ExecKeepsInv` | contracts/identity-registry/src/contract.rs:55-211 | through every entry point the key list is duplicate-free, equals the domain of the agent's metadata, has at most 100 keys and never holds agentWallet |
| `Identity.Reachable` | contracts/identity-registry/src/storage.rs:138-198 | after every history of calls an agent's key list names exactly its metadata, each key once, at most 100 of them, never the wallet's |
| `Identity.TransferClearsEverything` | contracts/identity-registry/src/contract.rs:20-33 | after any history, a transfer leaves every metadata key and the wallet reading as absent |
| `Identity.ClearIsComplete` | contracts/identity-registry/src/storage.rs:188-198 | clearing the listed keys clears all of the agent's metadata |
| `IdentityRegistry.Registry.RecordMetadataKey` | contracts/identity-registry/src/storage.rs:138-160 | the search appends a new key once and leaves a known one alone |
| `IdentityRegistry.Registry.ClearAllMetadata` | contracts/identity-registry/src/storage.rs:188-198 | the loop removes exactly the listed entries and the list |
| `IdentityRegistry.Registry.Register` | contracts/identity-registry/src/contract.rs:55-61 | storage and events are those of the specified call |
| `IdentityRegistry.Registry.RegisterWithUri` | contracts/identity-registry/src/contract.rs:63-70 | the same, with the URI stored before the wallet event |
| `IdentityRegistry.Registry.RegisterFull` | contracts/identity-registry/src/contract.rs:72-108 | all entries checked before anything is written; then storage and events are those of the specified call, metadata events before Registered |
| `IdentityRegistry.Registry.CheckEntries` | contracts/identity-registry/src/contract.rs:81-98 | accepts exactly at most 100 entries, each within its lengths and none using the reserved key |
| `IdentityRegistry.Registry.SetAgentUri` | contracts/identity-registry/src/contract.rs:118-132 | success or the same error as the specified call, with storage and events to match; the call `Identity.AgentsBelongToOwners` and `Projection.IdentityCallApplied` speak of |
| `IdentityRegistry.Registry.SetMetadata` | contracts/identity-registry/src/contract.rs:140-169 | the same, for all six checks in their order |
| `IdentityRegistry.Registry.SetAgentWallet` | contracts/identity-registry/src/contract.rs:182-195 | the same; the event carries the wallet as metadata, as `Projection.IdentityCallApplied` needs |
| `IdentityRegistry.Registry.UnsetAgentWallet` | contracts/identity-registry/src/contract.rs:201-211 | the same; the event carries an empty value, as `Projection.IdentityCallApplied` needs |
| `IdentityRegistry.Registry.Transfer` | contracts/identity-registry/src/contract.rs:20-33 | clears wallet and metadata, then moves the token; a refusal undoes the clearing |
| `Identity.OnlyTheEntitledChange` | contracts/identity-registry/src/contract.rs:299-317 | a call that succeeds without being the owner's or an approved caller's on that agent leaves its owner, URI, wallet and metadata alone |
| `Identity.AgentsBelongToOwners` | contracts/identity-registry/src/contract.rs:118-211 | over every history an agent changes only through calls by its owner of the time or one approved |
| `Identity.EntitledOnlyByTitle` | contracts/identity-registry/src/contract.rs:299-317 | title to an agent is ownership or approval, for a call about that agent |
| `Identity.RegistrationReadsBack` | contracts/identity-registry/src/contract.rs:55-108 | a registration succeeds exactly within 100 entries, 64 and 4096 long, none the wallet's; the new agent reads back as the caller's, with its URI, wallet and the last value per key |
| `Identity.UriReadsBack` | contracts/identity-registry/src/contract.rs:118-132 | exactly a nonempty URI from the owner or one approved is set; it reads back and nothing else of the agent moved |
| `Identity.MetadataReadsBack` | contracts/identity-registry/src/contract.rs:140-178 | exactly when a key may be set, bounds included; the value reads back and no other key moved |
| `Identity.WalletReadsBack` | contracts/identity-registry/src/contract.rs:182-211 | the wallet reads back once set and as absent once unset, by the owner or one approved and nobody else |
| `Identity.TransferReadsBack` | contracts/identity-registry/src/contract.rs:20-46 | a transfer takes the owner and the right to move the token; the URI stays, metadata and wallet read as absent |
| `Provenance.FeedbackHasGiver` | contracts/reputation-registry/src/contract.rs:31-92 | over every history of the three contracts all feedback was given by its client, while neither owner of the existing agent nor approved for it, as its next number |
| `Provenance.OwnFeedbackRefused` | contracts/reputation-registry/src/contract.rs:53-60 | feedback by the agent's owner or a caller approved for it, or on no agent, changes nothing and publishes nothing |
| `Provenance.StatusHasAuthors` | contracts/validation-registry/src/contract.rs:29-123 | over every history a request was filed by the agent's owner or one approved, and an answer on record is its designated validator's own, at most 100, given later |
| `Reputation.ExecKeepsInv` | contracts/reputation-registry/src/contract.rs:31-149 | every entry point keeps: feedback exactly at indices 1..LastIndex, values and decimals in range, responses only on existing feedback, clients with feedback exactly once in the dense list |
| `Reputation.HistoryIsKept` | contracts/reputation-registry/src/storage.rs:61-202 | over every history both indexes hold; stored feedback changes only from unrevoked to revoked, response counts only grow, list entries never move |
| `Reputation.ClientListExact` | contracts/reputation-registry/src/storage.rs:118-170 | the client list names exactly the clients with feedback, each once |
| `Reputation.FeedbackReadsBack` | contracts/reputation-registry/src/contract.rs:31-92 | exactly when feedback is taken, every bound included; it reads back at the next number and nothing recorded moved |
| `Reputation.RevocationReadsBack` | contracts/reputation-registry/src/contract.rs:94-115 | exactly the caller's own unrevoked feedback is revoked, once, its value and tags kept |
| `Reputation.ResponseReadsBack` | contracts/reputation-registry/src/contract.rs:118-149 | exactly when a response is taken; its feedback's count is one more and no other moved |
| `Reputation.RecordsInRange` | contracts/reputation-registry/src/storage.rs:61-202 | in every reachable state feedback is numbered from one to the last, within 18 decimals and 10^38, and only feedback has responses |
| `CountedIndex.AddEnumerates` | contracts/reputation-registry/src/storage.rs:118-142 | appending a new member keeps a counted index dense, duplicate-free and exact |
| `CountedIndex.ReadPage` | contracts/reputation-registry/src/storage.rs:156-170 | the read loop returns the list's slice, the end saturating at u32 |
| `Reputation.ClientPages` | contracts/reputation-registry/src/storage.rs:156-170 | after every history successive pages of any sizes concatenate to the client list |
| `Validation.RequestPages` | contracts/validation-registry/src/storage.rs:142-216 | after every history they concatenate to an agent's list and to a validator's |
| `ReputationRegistry.Registry.GiveFeedback` | contracts/reputation-registry/src/contract.rs:31-92 | storage and event of the specified call, or its error with nothing changed, counters exhausted included |
| `ReputationRegistry.Registry.AddClient` | contracts/reputation-registry/src/storage.rs:118-142 | appends to the dense list, or refuses when the counter is full |
| `ReputationRegistry.Registry.RevokeFeedback` | contracts/reputation-registry/src/contract.rs:94-115 | revokes existing unrevoked feedback of the caller, otherwise FeedbackNotFound; the one change `Reputation.HistoryIsKept` allows to stored feedback |
| `ReputationRegistry.Registry.AppendResponse` | contracts/reputation-registry/src/contract.rs:118-149 | counts a response on existing feedback, or the specified error |
| `ReputationRegistry.Registry.GetClientsPaginated` | contracts/reputation-registry/src/storage.rs:156-170 | in every reachable state the page is the slice of the client list |
| `Summary.GetSummary` | contracts/reputation-registry/src/contract.rs:165-243 | an error exactly when the client list is empty or a checked operation overflows; otherwise the count, the least most-frequent decimals m, and the exact WAD sum divided once, toward zero, by count times 10^(18-m); `Selection` says which feedback that is over, call by call |
| `Summary.TallyClient` | contracts/reputation-registry/src/contract.rs:181-214 | one client's wanted feedback (`Selection.GivenIsCountable`) is added exactly, or the first overflow is reported and no later value can undo it |
| `Summary.FindMode` | contracts/reputation-registry/src/contract.rs:224-233 | finds the least of the most frequent decimals |
| `Selection.LeastMostFrequent` | contracts/reputation-registry/src/contract.rs:224-233 | the decimals of a summary are the most frequent, the least of them on a tie |
| `Summary.TruncTwice` | contracts/reputation-registry/src/contract.rs:235-236 | two truncating divisions are one, for negative sums too |
| `Summary.AverageBetween` | contracts/reputation-registry/src/contract.rs:163-164 | the WAD average lies between the least and the greatest normalised value |
| `Summary.SmallValuesFit` | contracts/reputation-registry/src/contract.rs:200-211 | n times the greatest normalised magnitude within 2^127-1 rules out AggregateOverflow in any order |
| `Summary.FrequenciesSum` | contracts/reputation-registry/src/contract.rs:179-211 | the per-decimals counts sum to the count |
| `Summary.FitsWhenSignsFit` | contracts/reputation-registry/src/contract.rs:200-211 | no order of the same values overflows exactly when the count fits u64, the positive normalised values sum to at most i128's maximum and the negative ones to at least its minimum |
| `Summary.RepeatsCount` | contracts/reputation-registry/src/contract.rs:176-184 | for any client list, what is summed equals what is summed without repetitions exactly when no repeated client has wanted feedback, and is longer otherwise |
| `Selection.SelectedIsCountable` | contracts/reputation-registry/src/contract.rs:176-195 | in every state a summary is over exactly the unrevoked feedback of the listed clients that has the tags asked for |
| `Selection.GivenIsCountable` | contracts/reputation-registry/src/contract.rs:183-195 | each of a client's such entries is counted once |
| `Selection.RevocationLeavesSummary` | contracts/reputation-registry/src/contract.rs:94-115 | a revocation takes exactly the revoked feedback out of any summary that asks for its tags, once per listing of its client, and the count falls by as much |
| `Selection.FeedbackEntersSummary` | contracts/reputation-registry/src/contract.rs:31-92 | new feedback enters any summary that asks for its tags, once per listing of its client, and no other |
| `Selection.Normalised` | contracts/reputation-registry/src/contract.rs:196-204 | a normalised value is the value with eighteen decimals, exactly |
| `Selection.Powers` | contracts/reputation-registry/src/contract.rs:323-347 | powers of ten, and 10^18 for the eighteenth |
| `Selection.TowardZero` | contracts/reputation-registry/src/contract.rs:235-236 | division truncates toward zero, for negative sums too |
| `Selection.Limits` | contracts/reputation-registry/src/contract.rs:174-176 | the first five clients are considered, and sums are those of an i128 |
| `Validation.ExecKeepsInv` | contracts/validation-registry/src/contract.rs:29-123 | a request enters its agent's and its validator's index once; a response touches neither; responses stay at most 100 |
| `Validation.HistoryIsKept` | contracts/validation-registry/src/contract.rs:29-123 | over every history requests stay, with the same agent and validator, and a response is never withdrawn |
| `Validation.RequestListedOnce` | contracts/validation-registry/src/storage.rs:107-216 | each request hash is once in its agent's list, once in its validator's list and in no other; both kinds of list are free of repetitions |
| `Validation.StatusesBelongToValidators` | contracts/validation-registry/src/contract.rs:82-105 | over every history a status is as it was unless its designated validator answered, or the request was new and the caller had title to the agent |
| `Validation.ResponseReadsBack` | contracts/validation-registry/src/contract.rs:82-123 | exactly the designated validator of a known request, with at most 100, is taken; the status reads back the response, hash and tag as answered |
| `Validation.RequestReadsBack` | contracts/validation-registry/src/contract.rs:29-79 | exactly a new hash with title to an existing agent is taken; it reads back unanswered, with a zero hash |
| `ValidationSummary.GetSummary` | contracts/validation-registry/src/contract.rs:138-184 | the walk over the agent's index equals the filtered average over the whole map, rounded down, at most 100, without u64 overflow |
| `ValidationSummary.AnyOrder` | contracts/validation-registry/src/contract.rs:148-173 | the sum of responses does not depend on the order they are visited in |
| `ValidationSummary.RequestUnseen` | contracts/validation-registry/src/contract.rs:148-152 | a request without an answer changes no summary |
| `ValidationSummary.AnswerCounts` | contracts/validation-registry/src/contract.rs:148-173 | an answer counts, with its new value and tag, in exactly the summaries of its agent that ask for its validator and tag |
| `ValidationRegistry.Registry.ValidationRequest` | contracts/validation-registry/src/contract.rs:29-79 | status, both indexes and event of the specified call, or its error with everything undone |
| `ValidationRegistry.Registry.ValidationResponse` | contracts/validation-registry/src/contract.rs:82-123 | status and event of the specified call, or its error; `Validation.ResponseReadsBack` and `Validation.StatusesBelongToValidators` say that it is the designated validator's alone, with at most 100 |
| `ValidationRegistry.Registry.GetAgentValidationsPaginated` | contracts/validation-registry/src/storage.rs:142-157 | in every reachable state the page is the slice of the agent's list |
| `ValidationRegistry.Registry.GetValidatorRequestsPaginated` | contracts/validation-registry/src/storage.rs:197-216 | in every reachable state the page is the slice of the validator's list |
| `Base32.Base32Decode` | webapp/apps/indexer/src/chain/helpers.ts:133-158 | the never-masked accumulator, wrapping at 32 bits, yields exactly the bytes of the text's bit string; a foreign character or a set trailing bit is an error |
| `Base32.DecodeEncoded` | webapp/apps/indexer/src/chain/helpers.ts:133-158 | decoding undoes encoding on every 35-byte key |
| `Base32.EncodeDecoded` | webapp/apps/indexer/src/chain/helpers.ts:133-158 | encoding undoes decoding on every 56-letter text: decoding is a bijection |
| `Base32.Alphabet` | webapp/apps/indexer/src/chain/helpers.ts:2 | the alphabet is A to Z then 2 to 7, and nothing else is read |
| `Crc.Crc16Xmodem` | webapp/apps/indexer/src/chain/helpers.ts:160-178 | the byte-wise loop equals a register fed one bit at a time |
| `Crc.BurstDetected` | webapp/apps/indexer/src/chain/helpers.ts:160-178 | two messages that differ only within 16 adjacent bits have different checksums |
| `Crc.FeedIsShifts` | webapp/apps/indexer/src/chain/helpers.ts:163-175 | feeding up to 16 bits one at a time equals placing them at the top and shifting |
| `Crc.CheckValue` | webapp/apps/indexer/src/chain/helpers.ts:160-178 | the check value of CRC-16/XMODEM: 0x31C3 for the text 123456789 |
| `StrKey.IsValidStellarAddress` | webapp/apps/indexer/src/chain/helpers.ts:108-131 | true exactly for 56 characters starting with G or C that decode to the matching version byte and a payload whose checksum follows, low byte first; `StrKey.OneAddressPerKey` counts them |
| `StrKey.ValidIsChecked` | webapp/apps/indexer/src/chain/helpers.ts:120-127 | a valid address is 280 bits whose last 16, bytes swapped, are the register after the first 264 |
| `StrKey.OneAddressPerKey` | webapp/apps/indexer/src/chain/helpers.ts:108-131 | every key of 32 bytes has exactly one valid address that starts with G and exactly one that starts with C |
| `StrKey.SingleErrorDetected` | webapp/apps/indexer/src/chain/helpers.ts:108-131 | changing any one character of a valid address makes it invalid |
| `StrKey.SwapDetected` | webapp/apps/indexer/src/chain/helpers.ts:108-131 | swapping two adjacent different characters makes it invalid, also across the payload/checksum boundary |
| `Discovery.CursorMatchesOrder` | webapp/apps/web/src/lib/server/api/discovery.ts:33-50 | for each sort, the clause of a row's key selects exactly the rows ordered after it |
| `Discovery.StrictTotalOrder` | webapp/apps/web/src/lib/server/api/discovery.ts:32-50 | each order is strict, total and transitive on rows of different ids |
| `Discovery.PageDelivers` | webapp/apps/web/src/lib/server/api/discovery.ts:166-187 | reading limit + 1 rows, a page holds the next rows in order, and a cursor is given exactly when rows are left behind |
| `Discovery.SelectExists` | webapp/apps/web/src/lib/server/api/discovery.ts:166-173 | the ordered, limited query always has an answer, so the walk's promises are not empty |
| `Discovery.KeysAdvance` | webapp/apps/web/src/lib/server/api/discovery.ts:150-158 | everything a later page can return comes after every row of an earlier page |
| `Discovery.SteadyRowReturnedOnce` | webapp/apps/web/src/lib/server/api/discovery.ts:1-4 | however other rows come, go and move, a finished walk returns a row that matched throughout with one key exactly once |
| `Discovery.FixedTableWalk` | webapp/apps/web/src/lib/server/api/discovery.ts:166-187 | on a table that does not change, pages of any sizes make up the whole sorted result |
| `Discovery.RowsInOrder` | webapp/apps/web/src/lib/server/api/discovery.ts:32-50 | a page lists the highest scores first, or the latest, or the lowest ids; ties by id, newest backwards |
| `Discovery.FirstRowIsBest` | webapp/apps/web/src/lib/server/api/discovery.ts:32-50 | the first row of a first page has the highest score of all matching rows, or the latest time, or the lowest id |
| `Discovery.WalkFinishes` | webapp/apps/web/src/lib/server/api/discovery.ts:166-187 | from wherever a walk stands it ends once the table no longer changes, with pages of any size |
| `Base64.DecodeEncoded` | webapp/apps/web/src/lib/server/api/discovery.ts:60-68 | any string of bytes survives URL-safe unpadded base64 and atob |
| `Base64.Alphabet` | webapp/apps/web/src/lib/server/api/discovery.ts:60-68 | the URL-safe alphabet, and the two signs it replaces |
| `Base64.SpaceIgnored` | webapp/apps/web/src/lib/server/api/discovery.ts:66-68 | white space goes wherever it stands, as atob drops it |
| `Base64.PaddingIgnored` | webapp/apps/web/src/lib/server/api/discovery.ts:66-68 | padding to a multiple of four is taken off; elsewhere its sign is refused |
| `Json.QuotedParses` | webapp/apps/web/src/lib/server/api/discovery.ts:61-68 | JSON.parse reads back any string JSON.stringify quotes, whatever follows it |
| `Cursor.CursorRoundTrip` | webapp/apps/web/src/lib/server/api/discovery.ts:60-80 | a cursor exists exactly when no character is above 255; it decodes to its key exactly for its own query, a sort of its key's type and a safe integer id, and to nothing otherwise |
| `Search.SharedExactly` | webapp/apps/web/src/lib/server/api/discovery.ts:144-149 | among the searches the handler accepts, one shares its query with another exactly when two of text, trust and x402 are given, or its one free text ends in an x402 flag or, a text, holds a trust parameter |
| `Search.CursorBinds` | webapp/apps/web/src/lib/server/api/discovery.ts:150-155 | a cursor issued to an accepted search continues it, and another accepted one exactly in those cases |
| `Search.Collision` | webapp/apps/web/src/lib/server/api/discovery.ts:82-155 | any accepted text and trust share their cursors with the one text that spells both |
| `Search.SortChosen` | webapp/apps/web/src/lib/server/api/discovery.ts:95-96 | which order each sort text gives, score when none is given |
| `Search.AcceptedExactly` | webapp/apps/web/src/lib/server/api/discovery.ts:85-142 | which searches the handler answers, parameter by parameter |
| `Search.FullQuery` | webapp/apps/web/src/lib/server/api/discovery.ts:145-149 | the query of a search, its parameters in name order |

## Left out

- TTL extension and archival, `version`, names, plain getters, the upgrade timelock: host behaviour or easy members.
- The NFT base's approvals, balances and id exhaustion at u32: its code is not part of this model; approval is a parameter of each call and a transfer is an owner change.
- Exhausted counters of `register`: agent ids are unbounded numbers.
- The legacy wallet events `agent_wallet_set` and `agent_wallet_unset`, which the parser still reads: no call of the modelled contract publishes them. Written, they are `AgentWalletSet` and `AgentWalletUnset`.
- XDR and ScVal decoding and the event parsers, beyond the promotion of agentWallet: they rest on code that is not part of this model. The parser's address check is modelled by the length of 56; `StrKey` proves the check itself.
- Endpoint, URI and hash columns of feedback, transaction hashes, created_at and updated_at times, services, trust and payment flags: copied or derived values no guard depends on.
- `Healing.CrashRecovered`: stray writes are of events past the checkpoint; `Replays.StaleHistory` says what writes of older ledgers change.
- `Indexer.IndexContracts`: soundness needs runs without a retention clamp; a clamp loses its gap's events for good, as the code says. Within one run no other run writes; `Fencing` covers their interleaved checkpoints, `Fleet` their stray writes.
- `Fleet.FleetStaysSound`: a writer that mixes repeated events with ones past the checkpoints counts as several, each of one kind; no clamp takes effect.
- `Scan.IndexContract`: processed and skipped counters and log lines are not modelled; a failed dead-letter write, which the code logs and ignores, is not either. Dead letters are a set: a clamp repeated from the same ledger to the same one counts once.
- `Summary.GetSummary`: a count above u64 panics or overflows depending on which counter is hit first; the contract states only that it fails.
- Feedback indexes at or above 2^63, which SQLite INTEGER cannot hold.
- `pgTime` and stored text times: modelled as numbers.
- `pickRpc`, network checks, the resolver's fetching and host filtering, document parsing: I/O; documents and replies are parameters.
- `Resolver.ResolvePending`: the selection's ORDER BY and limit of 20 are a parameter; any selection of distinct due agents is allowed.
- Discovery's full-text match and filters: a page sees the rows that match at its time. Which numeric texts JavaScript reads as a score from 0 to 100 is a parameter of the accepted searches.
- `Cursor.CursorRoundTrip`: numbers are their JSON literals, without rounding to doubles; a string with an escaped surrogate is treated as malformed. Texts are Unicode scalar values.
- Other API handlers, pages, the leaderboard SQL, wallet signers, payment clients, generated bindings, seed and snapshot scripts.
