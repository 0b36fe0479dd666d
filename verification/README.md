# Mango-MAS: verified core

A Dafny model of the parts of Mango-MAS whose correctness lies in interleavings, failure points or nested
structure, with proofs that hold for every run or every input.

| files | what they model |
|---|---|
| `ReplayGuard.dfy`, `EmitProtocol.dfy`, `EmitGuarantees.dfy`, `EmitHistory.dfy`, `CompositeSink.dfy`, `CompositeProtocol.dfy` | The replay-guarded emit of a cognitive-signal sink: the bounded window of ids, the refcounted lock per id, any number of emits interleaved with failures, cancellations, late writes and evictions, and the fan-out to several sinks, with retries and with any number of composite emits at once. |
| `Dispatcher.dfy`, `DispatchGuarantees.dfy`, `Baseline.dfy`, `RunTotals.dfy` | The eval runner's concurrent row dispatcher over every schedule, the totals a run reports from it, and the diff of two reports. |
| `Chunker.dfy`, `Ingestion.dfy`, `IngestionGuarantees.dfy` | Chunk, embed, replace: the word-window chunker, and the pipeline over a store and an embedding client that may fail at any call. |
| `Template.dfy`, `Manifest.dfy`, `ManifestEdits.dfy`, `ManifestGuarantees.dfy`, `ManifestFrame.dfy`, `ManifestMeaning.dfy` | Rendering one environment's overlay onto the base manifest: the placeholder grammar, the edits, what validation stands for, what rendering changes, that it is idempotent, and what the rendered manifest says path by path. |
| `TracedStream.dfy`, `MetricsLatch.dfy`, `Discovery.dfy`, `DiscoveryLatch.dfy` | The span-scoped stream wrapper, the double-checked creation of the metric instruments, and the discovery of third-party agents with its once-per-registry latch. |
| `CommandScanner.dfy`, `CommandRules.dfy`, `AuthorityKeys.dfy`, `KeyWords.dfy`, `AuthorityWalker.dfy` | The scanner for destructive shell commands and what it blocks, the key normaliser and what it makes of any key, and the walker that rejects authority-shaped keys. |
| `Common.dfy` | Option, Result, sums over sequences. |

A protocol is a state machine: `Enabled(s, e)` says when an event can happen, `Next(s, e)` what it does, and `Run` folds
a list of events; an event is one stretch of the source between two points at which it can be interleaved. Objects
that the source updates in place are classes, and loops are methods, each proved against a function on plain values.

Four places where the documentation promises more than the code does. The model follows the code, and each comes with a
failing run or input and the exact condition under which the promise holds:

* An emit that returns normally is documented to have its record, as writer or as a replay
  (`src/mangomas/cognitive/sink.py:111`). Serialising the signal happens after its id is reserved and before the `try`
  that gives the reservation back (lines 181 to 195 and 235 to 242), so a payload that does not serialise leaves its id
  remembered, and the next emit of it reports a replay of a record nobody wrote. `EmitGuarantees.RaiseThenReplay` is the
  run, `EmitGuarantees.RecordedIffSerialises` the condition; `CompositeSinks.RetryDeliversNothing` and
  `CompositeSinks.DeliveredIffSerialises` say the same of the fan-out.
* The discovery latch is documented to keep a scan of one registry from suppressing discovery on another
  (`src/mangomas/agents/discovery.py:48`). It remembers identities, and an identity is free again once its registry is
  gone. `DiscoveryLatch.ReusedIdentityIsNotScanned` is the run, `DiscoveryLatch.UnscannedIffStale` the condition.
* Agent discovery promises that among third-party plugins the last one to claim a name wins
  (`src/mangomas/agents/discovery.py:17`). When a scan is aborted by an exception that is not an ordinary one, what it
  had registered counts as built-in for the next scan, which then keeps the first plugin.
  `Discovery.AbortedScanKeepsTheFirst` is an example, `Discovery.RetryAfterAborts` the condition, for any number of
  aborted scans.
* The key normaliser unifies camelCase with the other spellings
  (`mango-integration-contracts/src/mango_contracts/authority.py:58`). Two one-letter words in a row after the first run
  together: `AuthorityKeys.CamelRunsTogether`. `AuthorityKeys.CamelAgreesExactly` is the condition; every listed key
  meets it (`AuthorityWalker.EverySpellingIsCaught`).

## Model

| member | source | states |
|---|---|---|
| `ReplayGuards.NewReplayGuard` | src/mangomas/cognitive/sink.py:75-79 | A bound below one is refused and no guard is made; any other bound gives an empty guard with that bound. |
| `ReplayGuards.ReplayGuard.Seen` | src/mangomas/cognitive/sink.py:81-97 | The answer is whether the id was remembered before; the window afterwards is the one `Reserve` describes, so test and insert are one step and a replay does not refresh its place. |
| `ReplayGuards.ReplayGuard.Release` | src/mangomas/cognitive/sink.py:99-108 | Exactly the given id is forgotten; every other id stays, and a second release changes nothing. |
| `ReplayGuards.ReserveMembers` | src/mangomas/cognitive/sink.py:90-97 | A reserved id survives its own insertion, at most one other id goes, and the window stays within its bound without repeats. |
| `ReplayGuards.WindowStaysBounded` | src/mangomas/cognitive/sink.py:67-108 | Over every history of reservations and releases the window never exceeds `max_entries` and never holds an id twice. |
| `ReplayGuards.StaysWhileFewFresh` | src/mangomas/cognitive/sink.py:81-97 | An id that is not released stays while fewer than `max_entries` fresh ids have come after it, whatever is replayed or released in between. |
| `ReplayGuards.EvictedOnlyAfterCapFresh` | src/mangomas/cognitive/sink.py:90-97 | A just-reserved id that is gone without a release was followed by at least `max_entries` fresh reservations. |
| `ReplayGuards.StayIsExact` | src/mangomas/cognitive/sink.py:90-97 | When nothing is released, an id is remembered throughout a history if and only if fewer fresh ids follow than its distance from the exit, whatever is replayed, the id itself included: a replay cannot keep itself alive. |
| `ReplayGuards.PerKeyLock.Enter` | src/mangomas/cognitive/sink.py:136-137 | The caller gets the lock the key's users already share, a new one only for a key nobody uses, and is counted. |
| `ReplayGuards.PerKeyLock.Leave` | src/mangomas/cognitive/sink.py:142-146 | The count goes down by one; the last one out removes the row. |
| `EmitProtocol.StepKeepsInv` | src/mangomas/cognitive/sink.py:133-146 | Every step of every task, including a failed serialisation, a failed write, cancellation, a late write and an eviction in flight, keeps the invariant: each remembered id is on record, leaked by a failed serialisation, or reserved by the one task holding its lock; the lock table counts its users; the record balance holds. |
| `EmitProtocol.RunKeepsInv` | src/mangomas/cognitive/sink.py:175-206 | The invariant holds throughout every interleaving of any number of emits. |
| `EmitProtocol.InFlightIsHolder` | src/mangomas/cognitive/sink.py:178-202 | A task holding an id's lock is the only one that can have a write of that id in flight. |
| `EmitGuarantees.NormalReturnHasRecord` | src/mangomas/cognitive/sink.py:111-128 | An emit that returned normally, as the writer or as a replay, did so with a record of its id at the destination or after a failed serialisation of that id: always with its record when the id's signals serialise, so no follower reports success for a write that failed. |
| `EmitGuarantees.RaiseThenReplay` | src/mangomas/cognitive/sink.py:181-202 | The run that breaks the promise: serialising raises between the reservation and the try, the reservation stays, and the next emit of the signal returns normally with nothing written. |
| `EmitGuarantees.RecordedIffSerialises` | src/mangomas/cognitive/sink.py:111-128 | In every run every normal return of an id has its record if and only if the id's signals serialise. |
| `EmitGuarantees.RecordsStay` | src/mangomas/cognitive/sink.py:208-211 | Records only accumulate over a run. |
| `EmitGuarantees.RecordsAreAccountedFor` | src/mangomas/cognitive/sink.py:180-202 | Exact balance of records, reservations, leaks, evictions and failed-but-landed writes per id; with no eviction and no landed failure an id is written at most once. |
| `EmitHistory.HistoryIsTheEvents` | src/mangomas/cognitive/sink.py:180-202 | The records and every history of a sink are what the events of the run made them, one each: writes that landed, writes that landed without reporting success, evictions, failed serialisations, writes given up after an eviction, cancelled writes that may still land. |
| `EmitHistory.RecordsByEvents` | src/mangomas/cognitive/sink.py:175-211 | For one id in any run of a fresh sink the writes that landed are paid for, one each, by its place in the window, an eviction or a write that landed without reporting success; without the latter two there is at most one record, however many tasks emitted the id at once. |
| `EmitGuarantees.TableCountsTasksInside` | src/mangomas/cognitive/sink.py:130-146 | Per key the stored count is the number of tasks inside `hold`, all of them share one lock object, and a row exists exactly while someone is inside. |
| `EmitGuarantees.MutualExclusion` | src/mangomas/cognitive/sink.py:139-140 | Two tasks never hold one id's lock at once, and under the file lock never write at once. |
| `EmitGuarantees.OnlySameIdBlocks` | src/mangomas/cognitive/sink.py:122-124 | A waiting task cannot take its lock if and only if another task of the same id holds it: distinct ids never block each other. |
| `EmitGuarantees.RetryIsNotDropped` | src/mangomas/cognitive/sink.py:99-108 | While no record of an id exists, no emit of it failed to serialise and nobody is busy with it, a new emit gets as far as reserving its write. |
| `EmitGuarantees.IdleEmitReplays` | src/mangomas/cognitive/sink.py:181-186 | An emit of a remembered id nobody is busy with returns as a replay, whether or not the id has a record. |
| `EmitGuarantees.StepWorks` | src/mangomas/cognitive/sink.py:229-259 | Every event other than a new emit lowers a measure. |
| `EmitGuarantees.RunsAreBounded` | src/mangomas/cognitive/sink.py:229-259 | Once emits stop arriving only boundedly many events remain in any schedule. |
| `EmitGuarantees.NoDeadlock` | src/mangomas/cognitive/sink.py:180-197 | While some emit has not come back, some task can take a step of its own. |
| `EmitGuarantees.QuietSinkIsClean` | src/mangomas/cognitive/sink.py:141-146 | When no task can move, all have returned, the lock table is empty, no lock is held, and every remembered id is on record or was leaked by a failed serialisation. |
| `CompositeSinks.SequentialEmitIsARun` | src/mangomas/cognitive/sink.py:175-202 | An emit nobody interleaves with is a legal run of the protocol with the window, record and outcome that one complete emit has; it replies without an error exactly if that outcome is a normal return, and with an interruption exactly if a cancelled write raised. |
| `CompositeSinks.EmitInnerByFault` | src/mangomas/cognitive/sink.py:175-206 | One emit by what befell it: without an error exactly if in time and written or known, an ordinary error exactly if too late, not serialising or failing to write an unknown id, an interruption exactly if cancelled while writing one; a record exactly for a write that landed; remembered exactly as the guard says. |
| `CompositeSinks.CognitiveSink.Emit` | src/mangomas/cognitive/sink.py:175-206 | The object's emit: refuse an expired signal, enter the id's lock, consult the guard, serialise, write, release the reservation when the write fails but not when serialising does, leave the lock table as it was found; the three ways it comes back are told apart by the fault and the window alone. |
| `CompositeSinks.CompositeSink.EmitAt` | src/mangomas/cognitive/sink.py:274-283 | One turn of the fan-out changes the one inner sink and no other. |
| `CompositeSinks.CompositeSink.Emit` | src/mangomas/cognitive/sink.py:272-285 | Every inner sink is attempted though earlier ones raised, the first error is the one re-raised, and only a cancellation stops the fan-out where it is, all three stated as exact conditions on the faults and the windows alone. |
| `CompositeSinks.FaultsDecide` | src/mangomas/cognitive/sink.py:272-285 | The reply and what every sink is left with follow from the faults: no error exactly if every sink succeeds; stopped exactly if some sink is interrupted, at the first such; otherwise the first sink in order that errs, after all sinks. |
| `CompositeSinks.EmitInnerBalance` | src/mangomas/cognitive/sink.py:180-202 | Where a record of an id at one sink, or its place in the window, can come from: a delivery, an eviction, a failed write that landed, or a failed serialisation. |
| `CompositeSinks.SeriesBalance` | src/mangomas/cognitive/sink.py:266-285 | Over any series of emits of any signals, the records of one signal at one sink are exactly accounted for. |
| `CompositeSinks.DeliveredStays` | src/mangomas/cognitive/sink.py:272-285 | A sink that accepted a signal keeps it and gets no second record while the id is not evicted there. |
| `CompositeSinks.SuccessMeansDelivered` | src/mangomas/cognitive/sink.py:272-285 | A composite emit without an error leaves the signal remembered at every sink, and on record at every sink when the signal serialises. |
| `CompositeSinks.RetryDeliversNothing` | src/mangomas/cognitive/sink.py:272-285 | After every sink raised while serialising, the retry of the same signal returns without an error and the signal is on record nowhere. |
| `CompositeSinks.DeliveredIffSerialises` | src/mangomas/cognitive/sink.py:272-285 | From any sinks that do not know the signal: every emit of it without an error, in every series of emits, leaves it on record everywhere if and only if it serialises. |
| `CompositeSinks.RetryCompletes` | src/mangomas/cognitive/sink.py:272-285 | Retrying a signal that serialises after a partial failure delivers it where delivery failed, and a sink that had accepted it gets no second record while the id stays in its window. |
| `CompositeProtocol.StepKeepsState` | src/mangomas/cognitive/sink.py:272-285 | Any number of composite emits interleaved with each other and with emits of the inner sinks: each call has been through the first sinks in order and remembers the first error. |
| `CompositeProtocol.NoErrorMeansDelivered` | src/mangomas/cognitive/sink.py:272-285 | In every interleaving, a composite emit that returned without an error has its signal on record at every sink where it serialises. |
| `CompositeProtocol.FirstErrorAfterAllSinks` | src/mangomas/cognitive/sink.py:277-285 | In every interleaving, a composite emit that re-raised an error has been through every sink, and the error is the first one. |
| `CompositeProtocol.OnlyInterruptionsStop` | src/mangomas/cognitive/sink.py:274-283 | In every interleaving a composite emit is cut short exactly when something that is no ordinary exception comes out of a sink's emit; an ordinary error never keeps it from the sinks still to come. |
| `CompositeProtocol.AtMostOnePerSink` | src/mangomas/cognitive/sink.py:266-285 | However many composite emits of one signal run at once, each sink gets at most one record, evictions and stray writes apart. |
| `CompositeProtocol.CallsGoOn` | src/mangomas/cognitive/sink.py:274-276 | While a composite emit has not come back, it or the sink it awaits can take a step. |
| `CompositeProtocol.StepsAreBounded` | src/mangomas/cognitive/sink.py:272-285 | Once emits stop beginning, every step lowers a measure, so only boundedly many remain in any schedule. |
| `Dispatcher.StepKeepsInv` | src/mangomas/eval/runner.py:336-357 | Every event keeps the permits accounted for, the queue exact and the stop flag equivalent to a failing scored row under `fail_fast`. |
| `Dispatcher.RunKeepsInv` | src/mangomas/eval/runner.py:336-357 | The same over every schedule. |
| `DispatchGuarantees.AtMostParallelismInFlight` | src/mangomas/eval/runner.py:336-350 | Never more than `parallelism` rows are being scored or hold a permit. |
| `DispatchGuarantees.NothingStartsAfterStop` | src/mangomas/eval/runner.py:343-350 | Once the flag is set it stays set, no further row starts scoring, and the row that set it first stays the recorded trigger. |
| `DispatchGuarantees.TripLeavesFewInFlight` | src/mangomas/eval/runner.py:351-354 | The flag is set by the end of scoring a row that did not pass, which is the recorded trigger, with at most `parallelism - 1` other rows in flight. |
| `DispatchGuarantees.FailFastBoundsFailures` | src/mangomas/eval/runner.py:323-334 | Under `fail_fast` at most `parallelism` rows that do not pass are ever scored. |
| `DispatchGuarantees.SchedulesAreBounded` | src/mangomas/eval/runner.py:340-357 | No schedule of n rows has more than 4n events. |
| `DispatchGuarantees.NoStuckState` | src/mangomas/eval/runner.py:340-357 | Until every row has its result some event is possible. |
| `DispatchGuarantees.ResultsBelongToRows` | src/mangomas/eval/runner.py:331-334 | Position i of the result is row i's own score if it was scored, and otherwise a placeholder: the row's id and expected text, an error, no pass, no score, no prediction. Rows are skipped only when some scored row did not pass. |
| `DispatchGuarantees.RefinesSequentialLoop` | src/mangomas/eval/runner.py:306-314 | Without a failure to act on, every schedule returns what the sequential loop returns. |
| `DispatchGuarantees.FailFastLoopIs` | src/mangomas/eval/runner.py:43-54 | The plain loop with an early stop returns a row's own score exactly as long as every row before it passed, and after that placeholders that are errors and no passes. |
| `DispatchGuarantees.OnePermitRefinesFailFastLoop` | src/mangomas/eval/runner.py:336-357 | With one permit and `fail_fast`, every schedule returns what that plain loop returns. |
| `RunTotals.TotalsOfARun` | src/mangomas/eval/runner.py:255-260 | In every finished run, whatever the schedule and wherever it was cut short: passed and failed count scored rows only, errored counts the scored rows with an error and every skipped row, and the mean is that of the rows scored without an error. |
| `RunTotals.ResultsCarryTheirIds` | src/mangomas/eval/runner.py:43-54 | Every result, of a scored or of a skipped row, carries the id of the row at its place. |
| `RunTotals.SkippedRowsRegress` | src/mangomas/eval/runner.py:336-357 | A run cut short does not look clean: no skipped row is among the clean ids, and every skipped row that was clean in a baseline is listed as regressed. |
| `Baseline.TotalsPartitionRows` | src/mangomas/eval/runner.py:256-260 | passed, failed and errored add up to the dataset size, and failed counts the rows that ran without error and did not pass, so it is never negative. |
| `Baseline.TotalsCountRows` | src/mangomas/eval/runner.py:256-260 | Each of the three totals is the number of rows it is about. |
| `Baseline.MeanOfScores` | src/mangomas/eval/runner.py:258-259 | The mean is the sum of the scores of the rows without an error over their number, zero when there is none. |
| `Baseline.MeansCombine` | src/mangomas/eval/runner.py:258-259 | The score sum is additive over rows put together, so the mean of two runs taken as one is the weighted mean of the two. |
| `Baseline.MeanBetweenScores` | src/mangomas/eval/runner.py:258-259 | The mean score lies between the bounds of the scores it averages, and is zero when every row errored. |
| `Baseline.CleanRowsAreCleanIds` | src/mangomas/eval/baseline.py:38-39 | With unique row ids, counting clean rows and counting clean ids agree. |
| `Baseline.DiffIsAntisymmetric` | src/mangomas/eval/baseline.py:65-94 | Read from the other side every delta changes its sign, added and dropped ids swap, and no row regresses both ways. |
| `Baseline.DeltasAddUp` | src/mangomas/eval/baseline.py:79-94 | Over a third report in between all five deltas add up. |
| `Baseline.DeltasCountRows` | src/mangomas/eval/baseline.py:79-94 | The deltas say how many more rows pass, fail and end in an error in the current run, together the difference in size; the mean delta has the sign of the change of the mean. |
| `Baseline.PassRateSign` | src/mangomas/eval/baseline.py:34-35 | The pass-rate delta is positive exactly if the current run passes the larger share of its rows, negative exactly if the smaller. |
| `Baseline.DiffListsAre` | src/mangomas/eval/baseline.py:71-78 | Row by row: an id is regressed exactly if its row passed cleanly in the baseline and does not now, new or dropped exactly if only one of the reports has a row of it. |
| `Baseline.LastRowCounts` | src/mangomas/eval/baseline.py:69-70 | When ids repeat in a report, the last row of an id is the one compared. |
| `Baseline.PassedDeltaIsConserved` | src/mangomas/eval/baseline.py:71-92 | The change in passed rows equals newly clean shared rows plus clean new rows minus regressed rows minus clean dropped rows. |
| `Baseline.IdsArePartitioned` | src/mangomas/eval/baseline.py:71-78 | Shared, new and dropped ids partition all ids of the two reports; a regression is always a shared row. |
| `Baseline.NoRegressionNoLoss` | src/mangomas/eval/baseline.py:65-92 | With no regressed and no dropped row the passed count does not fall, nor the pass rate for equally large reports. |
| `Chunker.SplitInvertsJoin` | src/mangomas/rag/chunker.py:30-44 | Joining words with single spaces and splitting again gives the words back. |
| `Chunker.WhiteSpaceSeparates` | src/mangomas/rag/chunker.py:30-30 | For all texts and every white-space character, listed by value with the line breaks among them, splitting two texts with that character between them is splitting each. |
| `Chunker.OneWordIsOneWord` | src/mangomas/rag/chunker.py:30-30 | A text without any of these characters is one word, and no text is no word. |
| `Chunker.SplitKeepsCharacters` | src/mangomas/rag/chunker.py:30-30 | The words hold exactly the characters of the text that are not white space, each once and in order. |
| `Chunker.JoinsWithOneSpace` | src/mangomas/rag/chunker.py:44-44 | Joining puts one space between words and nothing anywhere else. |
| `Chunker.ChunkCountClosedForm` | src/mangomas/rag/chunker.py:35-48 | One chunk when n is at most size, otherwise one more than the least number of steps that cover the remaining n - size words. |
| `Chunker.WindowStarts` | src/mangomas/rag/chunker.py:38-47 | Every window starts inside the input, a later one beyond its overlap, and exactly the last one reaches the end. |
| `Chunker.ChunkText` | src/mangomas/rag/chunker.py:13-48 | The two refused option ranges; otherwise the chunks are the windows `[k*step, min(k*step+size, n))` joined, with termination of the unguarded loop. |
| `Chunker.WindowsCover` | src/mangomas/rag/chunker.py:3-5 | The first window followed by each later one without its first `overlap` words is the whole word list. |
| `Chunker.ChunksKeepEveryWord` | src/mangomas/rag/chunker.py:13-24 | Tokenising the chunk strings again loses no word of the document and invents none, and so keeps every character that is not white space, in order. |
| `Chunker.ChunksAreBoundedAndUseful` | src/mangomas/rag/chunker.py:16-20 | No chunk is longer than size, consecutive chunks share exactly the overlap, and every later chunk adds a word. |
| `Ingestion.ChunkIdInjective` | src/mangomas/rag/pipeline.py:235-235 | An id `source#index` determines its source and its index, even when sources contain the separator or digits. |
| `Ingestion.ChunkIdIs` | src/mangomas/rag/pipeline.py:235-235 | An id is the source, a number sign, and the index in decimal without leading zeros. |
| `Ingestion.ChunkRecordsAre` | src/mangomas/rag/pipeline.py:233-242 | A document's records are exactly one per chunk, under its own id, with its own vector, text and metadata. |
| `Ingestion.BatchPrefixRecords` | src/mangomas/rag/pipeline.py:194-242 | The first k batches hold exactly the records of the chunks they cover, for every batch size. |
| `Ingestion.VectorStore.DeleteBySource` | src/mangomas/adapters/vector/base.py:51-59 | Success removes exactly the records of that source and counts them; a failure may have removed any of them and nothing else; which of the two it was is recorded. |
| `Ingestion.VectorStore.Upsert` | src/mangomas/adapters/vector/base.py:36-45 | Success inserts or replaces exactly the batch; a failure may have written any part of it and nothing else; which of the two it was is recorded. |
| `Ingestion.IngestionPipeline.EmbedDocument` | src/mangomas/rag/pipeline.py:186-252 | The prepared batches are the document's batches in order with one call each, all answered; or an embedding error, which is that of the last call, all before it answered. The store is not touched. |
| `Ingestion.IngestionPipeline.ReplaceSource` | src/mangomas/rag/pipeline.py:254-295 | Old records go first, then the batches land in order, one call each; it fails exactly when its last call fails, and leaves a partly deleted source or a prefix of batches and part of the next. |
| `Ingestion.IngestionPipeline.IngestDocument` | src/mangomas/rag/pipeline.py:146-163 | One turn of the loop over documents: it succeeds if and only if the chunk options are legal and every call of the client and the store was answered; any error before the replace leaves the whole store as it was. |
| `Ingestion.IngestionPipeline.IngestDocuments` | src/mangomas/rag/pipeline.py:141-184 | A run completes if and only if the chunk options are legal and no call failed, and then leaves the store and the counts the documents in order give; a failing one stops at the call that failed, with one document affected. |
| `IngestionGuarantees.RunReplacesExactly` | src/mangomas/rag/pipeline.py:254-282 | From any well-formed store a completed run leaves each ingested source with exactly its current chunks and every other source untouched. |
| `IngestionGuarantees.CurrentIs` | src/mangomas/rag/pipeline.py:233-241 | Those chunks lie under ids `source#0` to `source#(n-1)`, each with its own vector and text. |
| `IngestionGuarantees.RunForgetsTheOld` | src/mangomas/rag/pipeline.py:257-262 | Two stores that differ only in sources about to be ingested end up equal. |
| `IngestionGuarantees.InterruptionIsContained` | src/mangomas/rag/pipeline.py:254-273 | A failing store call affects only the source being replaced, which then holds only old records, or all of some whole batches of new ones and part of the next: never a mix of old and new. |
| `IngestionGuarantees.FailedRunIsContained` | src/mangomas/rag/pipeline.py:152-159 | When a run fails at a document, the sources before it are complete, later ones untouched, and after an embedding failure its own source is exactly as it was. |
| `IngestionGuarantees.RetryRepairs` | src/mangomas/rag/pipeline.py:257-264 | After a run that failed anywhere, a completed run reaches the store a run that never failed would have reached. |
| `IngestionGuarantees.IngestIsIdempotent` | src/mangomas/rag/pipeline.py:254-295 | Ingesting the same documents again changes nothing. |
| `IngestionGuarantees.BatchCount` | src/mangomas/rag/pipeline.py:195-196 | A document takes the least number of batches that hold its chunks, none when it has none. |
| `IngestionGuarantees.ReportIs` | src/mangomas/rag/pipeline.py:179-184 | Over distinct sources the report counts every document, every chunk, each document's chunks in full batches but the last, and as deleted exactly the sources the store held vectors for. |
| `IngestionGuarantees.FirstRunDeletesNothing` | src/mangomas/rag/pipeline.py:160-163 | The report of a run over sources the store holds nothing of counts no deletion. |
| `Templates.SubstituteSucceeds` | scripts/deploy_environment.py:568-578 | Substitution succeeds if and only if no placeholder is malformed and every identifier has a value, whatever the values. |
| `Templates.FillDependsOnNames` | scripts/deploy_environment.py:568-571 | Only the values of mentioned identifiers can influence the text. |
| `Templates.SubstituteInvertsEscape` | scripts/deploy_environment.py:569-571 | Doubling every dollar sign protects any text from substitution. |
| `Templates.BracedPlaceholderIsReplaced` | scripts/deploy_environment.py:569-571 | A braced placeholder is replaced by its value and nothing after it moves; without a value its name is reported. |
| `Templates.NamedPlaceholderIsReplaced` | scripts/deploy_environment.py:569-571 | The same without braces when what follows does not carry the name on. |
| `Templates.TextPassesThrough` | scripts/deploy_environment.py:569-571 | Text before the first dollar sign passes through and what follows is read as if it stood alone. |
| `Templates.LoneDollarIsRefused` | scripts/deploy_environment.py:577-578 | A dollar sign that starts no placeholder is refused with any variables. |
| `Templates.DoubledDollarIsOne` | scripts/deploy_environment.py:569-571 | A doubled dollar sign gives one, and what follows is read as if it stood alone. |
| `Templates.BrokenBraceIsRefused` | scripts/deploy_environment.py:577-578 | An opening brace without a name and its closing brace is refused with any variables. |
| `ManifestEdits.EnvEntry` | scripts/deploy_environment.py:530-535 | The search loop finds the first entry of that name, or none when there is none. |
| `ManifestEdits.ApplyEnvTo` | scripts/deploy_environment.py:538-551 | The loop over plain overrides computes `ApplyEnv`, with its error when one would replace a secret reference. |
| `ManifestEdits.ApplySecretsTo` | scripts/deploy_environment.py:554-565 | The loop over secret overrides computes `ApplySecrets`, with its error when there is no reference to re-point. |
| `ManifestFrame.RenderMetadataIs` | scripts/deploy_environment.py:616-618 | The rendered metadata carries the service as name and app label and is otherwise the base's, labels included. |
| `ManifestFrame.RenderTemplateMetadataIs` | scripts/deploy_environment.py:620-626 | Every overlay annotation is in the rendered template metadata; every other annotation and field is the base's. |
| `ManifestFrame.RenderContainerIs` | scripts/deploy_environment.py:632-634 | The rendered container has the named image and the entries both kinds of overrides leave; every other field is the base's. |
| `ManifestEdits.RenderManifest` | scripts/deploy_environment.py:605-638 | The whole rendering, edit by edit on a copy, computes `Render` with the same error first; what the rendered manifest says is `ManifestMeaning.RenderSaysTheOverlay`, when there is one `ManifestMeaning.RenderSucceedsIff`. |
| `ManifestGuarantees.SubstituteOverridesSucceeds` | scripts/deploy_environment.py:581-595 | Filling an overlay succeeds if and only if every template in it is well formed and all its identifiers have values; names do not change. |
| `ManifestMeaning.SubstituteOverridesAre` | scripts/deploy_environment.py:581-595 | In a filled overlay every plain value, secret, annotation and the service account is the substitution of its own template, under its own name and in its own place. |
| `ManifestGuarantees.ApplyEnvShape` | scripts/deploy_environment.py:538-551 | Whether plain overrides fit depends on names only, never on values. |
| `ManifestGuarantees.ApplySecretsShape` | scripts/deploy_environment.py:554-565 | Whether secret overrides fit depends on names only, never on values. |
| `ManifestGuarantees.RenderSucceeds` | scripts/deploy_environment.py:605-638 | Rendering succeeds if and only if base and overlay fit, every placeholder has a value and the image is named; no value occurs in the condition. |
| `ManifestGuarantees.CollectPlaceholderNames` | scripts/deploy_environment.py:720-733 | The loop over environments adds every overlay's identifiers to one set. |
| `ManifestGuarantees.CollectedIffMentioned` | scripts/deploy_environment.py:720-733 | An identifier is collected if and only if some environment's overlay mentions it. |
| `ManifestGuarantees.CheckOne` | scripts/deploy_environment.py:742-742 | The sentinel rendering of one environment decides whether base and overlay fit. |
| `ManifestGuarantees.ValidateRegistry` | scripts/deploy_environment.py:736-751 | Validation succeeds if and only if every environment fits the base, and then lists every environment in order. |
| `ManifestGuarantees.ValidationStandsForAllValues` | scripts/deploy_environment.py:714-751 | An environment that renders with the sentinels renders with every named image and every variable map that covers its placeholders; one that does not never renders. |
| `ManifestFrame.ApplyEnvStage` | scripts/deploy_environment.py:538-551 | Each plain override is in force afterwards; old entries keep their place and differ only in an overridden value; added ones are plain; names stay unique. |
| `ManifestFrame.ApplySecretsStage` | scripts/deploy_environment.py:554-565 | Each secret override is in force afterwards and only the name of an overridden secret differs. |
| `ManifestFrame.RenderFilledIs` | scripts/deploy_environment.py:605-638 | After rendering the whole overlay is in force and every other field, level by level, is as in the base. |
| `ManifestFrame.RenderChangesOnlyTheOverlay` | scripts/deploy_environment.py:605-638 | The same for the renderer's actual input, with the filled overlay in force (each of its values the substitution of its own template by `ManifestMeaning.SubstituteOverridesAre`), env names unique and exactly the same names backed by secrets as before. |
| `ManifestMeaning.RenderSaysTheOverlay` | scripts/deploy_environment.py:605-638 | The rendered manifest by its paths: service as name and label, one container with the named image, and at the place of every plain value, secret, annotation and of the service account the substitution of the overlay's own template. |
| `ManifestMeaning.RenderSucceedsIff` | scripts/deploy_environment.py:605-638 | Rendering succeeds if and only if the files allow it, by their paths: mappings or nothing at four places, one container with distinct env entries, no plain override of an entry with another source, a reference for every secret; and every placeholder has a value and the image is named. |
| `ManifestMeaning.ValidatedIff` | scripts/deploy_environment.py:736-751 | That condition on the files is the one validation decides for each environment. |
| `ManifestMeaning.FitsIff` | scripts/deploy_environment.py:538-565 | An overlay fits if and only if no plain override meets an entry that takes its value from elsewhere and every secret override finds a reference to re-point. |
| `ManifestMeaning.SingleContainerIff` | scripts/deploy_environment.py:509-527 | The single container is found if and only if exactly one is declared, with an env list of mappings of distinct names or none. |
| `ManifestFrame.RenderIsIdempotent` | scripts/deploy_environment.py:605-638 | Rendering its own output with the same environment, image and variables changes nothing. |
| `TracedStreams.StepKeepsInv` | src/mangomas/composition/harness.py:180-213 | Every step through the nested try, except and finally blocks, every answer or exception from either await and everything the consumer does keeps the context, the span, the close and the chunks in order. |
| `TracedStreams.ContextIsTheConsumers` | src/mangomas/composition/harness.py:154-163 | In every run, whenever the generator is suspended at a yield or over, the ambient context is its consumer's and nothing attached is left; the inner stream is awaited under the span, on top of that context. |
| `TracedStreams.SpanEndsOnce` | src/mangomas/composition/harness.py:165-173 | In every run a started span ends exactly once, when the stream is over however it went; by then a closable inner stream has been closed, exactly once. |
| `TracedStreams.EndsExactlyWhenOver` | src/mangomas/composition/harness.py:180-205 | In every run the generator leaves its loop exactly when the consumer has thrown something in or the last answer of the inner stream was its end or a failure; every answer before that was a chunk. |
| `TracedStreams.EachRequestPulls` | src/mangomas/composition/harness.py:180-189 | Every request of the consumer leads to one await of the inner stream: all but the one being served have been answered. |
| `TracedStreams.ChunksPassThrough` | src/mangomas/composition/harness.py:184-189 | In every run the consumer gets the inner stream's chunks unchanged and in order, all of them at a yield and at the end. |
| `TracedStreams.DrainedStreamGivesAll` | src/mangomas/composition/harness.py:175-213 | A consumer that drains the stream gets exactly the chunks the inner stream gives, however many, then a normal end when it is exhausted or its exception when it fails, in its own context and with the span ended. |
| `TracedStreams.OnlyErrorsAreRecorded` | src/mangomas/composition/harness.py:190-211 | An error status, recorded once, exactly for an exception other than a close or a cancellation raised while streaming; what was raised goes on, and only an interruption of the close, never an ordinary failure of it, can replace it. |
| `TracedStreams.RunsAreBounded` | src/mangomas/composition/harness.py:180-213 | Between two turns of the consumer the generator takes at most seven steps. |
| `TracedStreams.GoesOnUntilDone` | src/mangomas/composition/harness.py:180-213 | Until the stream is over there is always a next event, and after that none. |
| `TracedStreams.AbandonedStreamEnds` | src/mangomas/composition/harness.py:165-173 | A consumer that closes the stream at a yield: the inner stream is closed, the span ends without an error status, and the consumer's context stays. |
| `MetricsLatch.OneInstrumentsForAll` | src/mangomas/metrics.py:53-69 | At most one instruments object is ever built, and every caller that returns gets that one. |
| `MetricsLatch.FailsOnItsOwn` | src/mangomas/metrics.py:61-69 | A call fails exactly when building the instruments failed in that very call. |
| `MetricsLatch.LaterCallsDoNotWait` | src/mangomas/metrics.py:53-69 | Once the instruments are stored every call gets them with its first read, whoever holds the lock. |
| `MetricsLatch.NoDeadlock` | src/mangomas/metrics.py:61-69 | While a call has not ended, it or the lock's holder can take a step, also after a creation that raised. |
| `MetricsLatch.RunsAreBounded` | src/mangomas/metrics.py:61-69 | Every step brings a call closer to its end: at most five events for each call, in any schedule. |
| `Discovery.LastPluginWins` | src/mangomas/agents/discovery.py:14-19 | No protected name is provided, a name is provided exactly when it is reported, and the last plugin to claim a name has it. |
| `Discovery.ScanInTwoParts` | src/mangomas/agents/discovery.py:70-116 | Scanning two groups of entries one after the other reports and binds what scanning them together does: order and repetitions are kept. |
| `Discovery.OneEntry` | src/mangomas/agents/discovery.py:70-113 | One entry is registered and reported exactly if it is a loadable callable under a name that is not protected. |
| `Discovery.Registry.DiscoverAgents` | src/mangomas/agents/discovery.py:56-116 | The scan loop registers and reports exactly the loadable callable plugins with unprotected names, in order, up to an entry whose loading escapes; protected bindings stay. |
| `Discovery.PluginLatch.EnsureAgentPlugins` | src/mangomas/agents/discovery.py:119-138 | One call scans exactly when enabled and not latched, latches the registry exactly when the scan completed, and rebinds no name registered before. |
| `Discovery.RetryAfterAborts` | src/mangomas/agents/discovery.py:136-138 | After any number of aborted scans the retry takes what they registered for built-in; it leaves what a scan without them would if and only if every name they gave away, entry by entry, goes to the very same plugin in the entries of the retry. |
| `Discovery.AbortedScanKeepsTheFirst` | src/mangomas/agents/discovery.py:17-19 | A concrete case: an aborted scan between two plugins of one name makes the first one win after the retry. |
| `DiscoveryLatch.StepKeepsInv` | src/mangomas/agents/discovery.py:127-138 | Every step of any number of threads on any number of registries keeps the latch, the lock and the record of complete scans in agreement. |
| `DiscoveryLatch.UnscannedIffStale` | src/mangomas/agents/discovery.py:48-53 | An enabled call returns without a complete scan of its own registry if and only if that registry's identity was latched, when it was created, by an earlier registry that has been dropped. |
| `DiscoveryLatch.ReusedIdentityIsNotScanned` | src/mangomas/agents/discovery.py:129-131 | A concrete run: a registry is scanned and dropped, another is created under its identity, and the call for it returns without a scan. |
| `DiscoveryLatch.ReturnsAfterOneScan` | src/mangomas/agents/discovery.py:127-138 | Any other enabled call returns only after one complete scan of its registry, which is never scanned to the end twice and holds exactly what that scan left. |
| `DiscoveryLatch.OneScanAtATime` | src/mangomas/agents/discovery.py:132-138 | At most one scan runs at any moment and no name registered at the start ever loses its factory. |
| `DiscoveryLatch.RaisesOnItsOwn` | src/mangomas/agents/discovery.py:132-138 | A call raises only if its own scan did: an entry of it escaped when loaded, or it was broken off between two entries. |
| `DiscoveryLatch.LatchedCallsDoNotWait` | src/mangomas/agents/discovery.py:127-131 | A call with discovery disabled or for a latched identity returns with its first look, without the lock, and changes nothing. |
| `DiscoveryLatch.NoDeadlock` | src/mangomas/agents/discovery.py:127-138 | While a call has not ended, it or the lock's holder can take a step; a scan that raised has let go of the lock. |
| `DiscoveryLatch.RunsAreBounded` | src/mangomas/agents/discovery.py:127-138 | Every step of a call lowers a measure, so once calls stop coming only boundedly many events remain. |
| `CommandScanner.FindGitSubcommand` | scripts/_destructive_bash.py:114-125 | The index loop returns the first argument that is no global option or option value, lower-cased, and what follows it. |
| `CommandScanner.SplitSegments` | scripts/_destructive_bash.py:184-191 | Growing a list of lists and dropping empty ones gives the maximal runs of tokens between separators. |
| `CommandScanner.SeparatorHidesNothing` | scripts/_destructive_bash.py:184-191 | Two token lists joined by a separator are blocked if and only if one of them is. |
| `CommandScanner.PrefixNeverUnblocks` | scripts/_destructive_bash.py:206-216 | Tokens in front of a segment never unblock it. |
| `CommandScanner.BlockedIffSomeTokenCaught` | scripts/_destructive_bash.py:206-216 | A segment is blocked if and only if some token, read as a program with what follows it, is caught by its rule or by its nested command. |
| `CommandScanner.DeeperNeverUnblocks` | scripts/_destructive_bash.py:219-227 | Starting deeper in the nesting never unblocks a command: the depth bound fails closed. |
| `CommandScanner.GlobalOptionsAreSkipped` | scripts/_destructive_bash.py:114-125 | Any well-formed run of global options is skipped and exactly the subcommand and its arguments remain. |
| `CommandScanner.GlobalOptionsDoNotHide` | scripts/_destructive_bash.py:135-148 | The git rules give the same verdict with any such options in front. |
| `CommandScanner.RmIgnoresOrder` | scripts/_destructive_bash.py:94-98 | Reordering the arguments of `rm` never changes the verdict. |
| `CommandScanner.RmIgnoresOperands` | scripts/_destructive_bash.py:73-98 | Operands after the end-of-options marker do not matter to the `rm` rule. |
| `CommandRules.BlockedIffDestructive` | scripts/_destructive_bash.py:206-227 | A command is blocked if and only if it is nested more than three deep or some token of it, read as a program with what follows it up to the next separator, offends by its own arguments or is a shell told to run a command that is blocked: said without the scanner's loops, segments and tables. |
| `CommandRules.CheckFollowsTheRules` | scripts/_destructive_bash.py:94-170 | Each checker objects if and only if the rule for its program applies, the rule given by value: which options, clusters, abbreviations, switches, subcommands and refspecs, and whether before the end-of-options marker. |
| `CommandRules.GitIs` | scripts/_destructive_bash.py:114-148 | The git rules apply to the subcommand behind any well-formed global options, if and only if there is one. |
| `CommandRules.ReasonNamesItsRule` | scripts/_destructive_bash.py:94-170 | The reason given is that of the rule that applies. |
| `CommandRules.PayloadIs` | scripts/_destructive_bash.py:194-203 | The nested command is the argument after the first one that introduces it, or all that follows for `cmd`; there is none exactly if no argument introduces one. |
| `CommandRules.ProgramIsNamed` | scripts/_destructive_bash.py:66-70 | A program is recognised behind quotes and backslashes, any path, in any case and with or without `.exe`. |
| `CommandRules.ForcedRmIsBlocked` | scripts/_destructive_bash.py:94-98 | Any command with `rm` followed, before the marker, by a cluster holding r, R or f or by a long form of it is blocked, whatever stands around. |
| `CommandRules.NestedIsBlocked` | scripts/_destructive_bash.py:194-216 | A blocked command stays blocked when a shell is told to run it with `-c`, on any level. |
| `AuthorityKeys.Normalise` | mango-integration-contracts/src/mango_contracts/authority.py:57-69 | The result has no capitals, no dash and no space, no two underscores in a row and none at either end. |
| `AuthorityKeys.NormalisingTwice` | mango-integration-contracts/src/mango_contracts/authority.py:63-69 | Normalising twice is normalising once, exactly when stripping the underscores has laid bare no white space. |
| `AuthorityKeys.CollapseLoop` | mango-integration-contracts/src/mango_contracts/authority.py:67-68 | Repeated pair replacement ends, and leaves every run of underscores as one. |
| `AuthorityKeys.SplitCamelIs` | mango-integration-contracts/src/mango_contracts/authority.py:64-65 | The two regular expressions one after the other are a single pass that cuts where a word ends. |
| `AuthorityKeys.NormalFormIsFixed` | mango-integration-contracts/src/mango_contracts/authority.py:57-69 | A key in normal form normalises to itself. |
| `AuthorityKeys.SeparatedSpellingsAgree` | mango-integration-contracts/src/mango_contracts/authority.py:57-69 | The kebab, spaced and snake spellings of a word list normalise to the snake spelling. |
| `AuthorityKeys.CamelNormalises` | mango-integration-contracts/src/mango_contracts/authority.py:58-65 | The camelCase spelling normalises to the words joined where camelCase shows their boundaries. |
| `AuthorityKeys.CamelAgreesExactly` | mango-integration-contracts/src/mango_contracts/authority.py:57-69 | camelCase agrees with the other spellings if and only if each of its boundaries shows, as always with words of two or more characters. |
| `AuthorityKeys.CamelRunsTogether` | mango-integration-contracts/src/mango_contracts/authority.py:57-65 | A concrete case: getAB normalises to get_ab, not to get_a_b. |
| `AuthorityKeys.PascalAgreesExactly` | mango-integration-contracts/src/mango_contracts/authority.py:57-69 | PascalCase agrees if and only if every boundary shows. |
| `AuthorityKeys.ScreamingAgreesExactly` | mango-integration-contracts/src/mango_contracts/authority.py:57-69 | Capitals throughout agree if and only if no digit stands directly before a letter. |
| `KeyWords.NormalisesToItsWords` | mango-integration-contracts/src/mango_contracts/authority.py:57-69 | Any key at all normalises to its words joined with single underscores: trimmed, cut at separators and at the boundaries of camelCase, in lower case and with nothing else of it changed. |
| `KeyWords.TrimIs` | mango-integration-contracts/src/mango_contracts/authority.py:63-63 | Trimming takes the white space off both ends and nothing else. |
| `AuthorityWalker.AcceptsExactlyTheAllowed` | mango-integration-contracts/src/mango_contracts/authority.py:72-87 | The walker accepts a payload if and only if at every depth every key of a mapping is text and what it normalises to is on neither list. |
| `AuthorityWalker.EverySpellingIsCaught` | mango-integration-contracts/src/mango_contracts/authority.py:14-50 | Every listed key is a violation in its kebab, spaced, snake, camelCase, PascalCase and SCREAMING_SNAKE spellings. |
| `AuthorityWalker.CaughtAtAnyDepth` | mango-integration-contracts/src/mango_contracts/authority.py:72-87 | A payload with such a key in a mapping at whatever depth is rejected. |
| `AuthorityWalker.ReportedKeyIsThere` | mango-integration-contracts/src/mango_contracts/authority.py:74-82 | What the walker reports is there: the very key it names, of the kind it says, in some mapping of the payload. |

## Left out

- I/O, the network, clocks, logging, tracing attributes and configuration are parameters or absent. An embedder, a store, a file append, a request or an entry point is a step that may succeed or fail.
- Signal expiry is looked at once, when an emit starts, as in the source; a signal may expire while its emit waits for a lock, so nothing is said about the time of a write.
- One sink's guard is its own; a guard object shared between two sinks is not modelled.
- EmitProtocol.RunKeepsInv: a failing write that landed and a write that lands after its task was cancelled are events of their own; how the operating system orders bytes within one append is not modelled. Which signals serialise is a parameter, a set of ids.
- CompositeSinks.CompositeSink.Emit: no two inner sinks share a guard. The objects' emits follow each other; interleaved ones are covered by `CompositeProtocol`, and `SequentialEmitIsARun` connects the two.
- Dispatcher.RunKeepsInv: cancelling the whole run is not an event. The library's semaphore makes a newcomer queue while a woken waiter has not resumed, even with a permit free, and the model lets it take that permit. The case does not arise: `gather` schedules every worker's first stretch before any of them can resume, and a worker that ends its scoring within that stretch got its permit with nobody waiting, so no waiter is woken before the last worker has started.
- Baseline.PassedDeltaIsConserved: listing order of ids, durations and costs are not modelled, and scores and rates are reals instead of floating-point numbers.
- Chunker.ChunkText: a text is a sequence of code points, and the white space is that of `str.split()`; error texts are not modelled.
- Ingestion.IngestionPipeline.IngestDocuments: the embedding client gives one vector per text that does not vary between calls; loading documents and queries are not modelled.
- ManifestEdits.RenderManifest: two keys of one YAML document that share a node by an anchor are separate values here, mapping keys are strings, and numbers and booleans are compared by their written form. Each edit rebuilds its mapping instead of changing it in place, so neither aliasing nor the base being left untouched by the copy is stated. Error texts are not modelled beyond their kind and the name they report.
- Parsing a registry, choosing the environment of a ref, ancestry checks and image tags: a configuration reader and calls to git.
- TracedStreams.StepKeepsInv: a stream closed before its first chunk is asked for never starts and is not modelled; starting the span and setting its attributes do not fail; detaching restores what attaching saved, whatever context the inner stream left current.
- DiscoveryLatch.ReturnsAfterOneScan: nothing but discovery registers in a registry once it has been created with its built-in bindings.
- CommandRules.BlockedIffDestructive: tokenising a command line is a parameter, so quoting rules are not modelled; lower-casing is ASCII.
- AuthorityKeys.CamelAgreesExactly: character classes and lower-casing are ASCII.
- AuthorityWalker.AcceptsExactlyTheAllowed: the location in the error message is not modelled, and payloads are finite trees.
- Agents, orchestrator, workflow, gate, adapters, API and CLI: wiring, or logic local to one branch.
