# A verified model of the Binance capture and replay engine

The program captures Binance depth and trade streams (Spot and USD-M), keeps a partial
top-five book per symbol, and writes an audit CSV and an order-book CSV that can be replayed.
This project models its core in Dafny and proves what the core promises, from one
level of a book up to a whole capture: whatever the events, the reconnects, the interleaving
of the two threads and the answers of the operating system.

`dafny verify dfyconfig.toml` checks the whole project.

## How the project is organised

| files | what they hold |
|---|---|
| `Types`, `Decimal`, `FixedPoint` | shared values; decimal text; the exact decimal parser |
| `TopFive`, `BookArrays`, `BookState`, `Sequencer`, `Continuity`, `Exchange` | the book: specification, in-place arrays, objects, the two sequence protocols, what their verdicts mean for the updates delivered, soundness against an exchange history |
| `ProbeTable`, `DepthParser`, `Subscription` | linear probing; the duplicate table and level loop of the parser; the route table |
| `CsvFormat`, `CsvBuffer`, `BookColumns`, `CsvDecode`, `AuditFile`, `AuditSoundness`, `ReplayReader` | rows to text and back: specification, formatter buffer, the columns of an order-book row, framing and decoding, whole files, what a reader accepts, chunked reader |
| `EventProcessor`, `LivePipeline`, `BookNumbers`, `LiveObjects`, `ReplayLoop` | the event state machine, the pipeline, row numbering, and the same as objects updated in place |
| `LiveReplay`, `ReplayAgreement`, `DivergingRuns` | replay against live: the simulation, exactly when the two agree, and two runs on which they do not |
| `WriterRing`, `WriterRingInvariants`, `WriterRingTheorems`, `WriterProgress`, `RingRoom` | the writer ring as a two-thread step system: safety, and progress of the writer thread |
| `FileSink`, `OutputSet` | the buffered sink under adversarial writes, and the set of output files |
| `Backoff`, `Controller`, `System`, `SystemProofs`, `SystemSteps`, `SystemTheorems`, `CaptureHealth`, `OutcomeCounters`, `EndToEnd`, `CaptureFiles` | the controller and its session joined with the ring; theorems over every reachable state; why a capture refuses, ends or fails; the replay of a successful capture; the same capture run on its output files |

Modelling decisions:

- The writer ring and the controller are one transition system. A step makes at most one
  access to an atomic variable, the mutex or the condition variable; program counters cut the
  multi-step operations. Every interleaving is allowed, so the memory model is sequential
  consistency. Two handshakes of the writer are store-then-load patterns, for which weaker
  orders are not covered.
- The JSON parsers are functions of the bytes. Of the envelope parser the model uses only that a
  route is one of the configured ones and that the inner object is not larger than the
  message. The contract of the payload parser (`EventProcessor.ParserContract`) is proved for
  the part of it that is not JSON traversal (`DepthParser.ParseDepth`).
- A byte is a `char`; integers are unbounded and every width that matters is written out.
- Clocks, timers, jitter, the network and the operating system are nondeterministic choices.
- Hash functions are arbitrary: the tables are proved for every function into the table.

Two facts the proofs bring out, and that the code does not state:

- Replay does not always regenerate the live rows. A `depth_diff` of a symbol that is rejected
  before its audit row while the live book is valid invalidates that book, and no audit row
  records it: replay goes on holding the book that live has dropped. This window closes, with
  both sides in step, at the end of the session, at the first message of a later connection, at
  a diff rejected by its schema, and at an event that the held book answers with a gap, a
  crossing or an applied refresh; stale diffs and trades leave it open. Two verdicts of the held
  book break the agreement: a diff it applies (live ignores it) and a refresh it drops as older
  (live, whose book is invalid, applies it). Every prefix of a run is replayed exactly if and
  only if neither verdict occurs in an open window (`ReplayAgreement.AgreementIsExact`);
  `DivergingRuns` holds a run of three messages for each verdict.
- In the USD-M chain the stale branch after the bridge is unreachable, given the parser's
  `pu < u` (`Sequencer.ChainedDiffExtendsOrClears`).

## Model

| member | source | states |
|---|---|---|
| `EndToEnd.CaptureReplays` | src/live_capture_controller.cpp:531-600 | for every reachable end of a capture without an error and every symbol for which the run never breaks (the exact condition of `ReplayAgreement.AgreementIsExact`): replaying the header and the audit records handed to its file emits exactly the order-book records handed to its other file |
| `EndToEnd.ReplayCapture` | src/market_data_replay.cpp:591-678 | the same with the replay program itself, reading in chunks and updating its state in place, unless a read fails |
| `CaptureFiles.CaptureAndReplay` | src/csv_writer.cpp:212-306 | from file to file: a capture under any schedule of its two threads, whose writer thread makes its calls on an output set and goes on with the answers, and then the replay program on a symbol's audit file; if the capture has ended without an error and never breaks for the symbol, what replay emits is exactly what follows the header in the symbol's order-book file, unless a read fails |
| `CaptureFiles.Capture` | src/csv_writer.cpp:212-306 | every such run leads to a reachable state, in which the thread's counts are those of the set and, until the first error, the sinks hold exactly the records handed over |
| `CaptureFiles.WriterStep` | src/csv_writer.cpp:212-306 | a step of the writer thread on its output set is a step of the ring: the answers of write_batch, flush_all and close_all meet the contracts the ring assumes, and only the mutex and the end of the thread hold it up |
| `CaptureFiles.CleanFiles` | src/csv_writer.cpp:283-306 | at the end of a capture without an error every file is its header and the records handed over for it |
| `CaptureFiles.OpenedIsNew` | src/csv_output_set.cpp:577-640 | a set whose sinks were all opened, with nothing offered to them yet, is one a capture can start with |
| `EndToEnd.EverythingIsHanded` | src/csv_writer.cpp:212-306 | at the end of a capture without an error the batches handed to the files are exactly those the pipeline asked to publish, in order |
| `EndToEnd.HistoryReplays` | src/live_event_pipeline.cpp:72-190 | the replay result of `EndToEnd.CaptureReplays` from an ordered history of pipeline inputs alone |
| `EndToEnd.RunIsSent` | src/live_event_pipeline.cpp:72-190 | the rows of a symbol over a whole history are those of the batches to publish, in order |
| `EndToEnd.OrderedMeansNewEpochs` | src/live_capture_controller.cpp:478-491 | after a session has ended the next message comes from a later connection |
| `EndToEnd.HandedIsSent` | src/csv_output_set.cpp:313-363 | the records handed over for a target are the texts of the rows of its symbol |
| `SystemTheorems.CapacityErrorsNeverOccur` | src/csv_writer.cpp:361-396 | in every reachable state of a capture no acquire reports missing slots and no publish reports missing bytes, and none is refused for a misused slot, a bad target or a bad batch |
| `SystemTheorems.MetadataIncreases` | src/verified_websocket_session.cpp:418-455 | messages reach the pipeline with strictly increasing (epoch, sequence), over reconnects, failed attempts and stale callbacks |
| `SystemTheorems.MetadataIsAccepted` | src/live_event_pipeline.cpp:40-60 | the metadata check accepts the message in hand, and its only possible fatal result is a symbol out of sequence numbers |
| `SystemTheorems.EpochsCountConnections` | src/live_capture_controller.cpp:478-491 | the epoch of an open session is the number of successful connections before it, so failed attempts use none |
| `SystemTheorems.MessagesAreAccounted` | src/live_capture_controller.cpp:531-600 | at every step: complete messages = published + rejected before audit + in hand + at most one lost to the latched failure; processed events = the sum of the nine outcome counters |
| `SystemTheorems.SuccessfulRunBalances` | README.md:531-539 | a successful run satisfies every equality the documentation promises |
| `SystemTheorems.OnlyStopEndsCleanly` | src/live_capture_controller.cpp:641-719 | a capture that has not failed has seen fewer than three message policy failures since its last published batch, and it ends without an error only after a stop was requested and with a successful writer |
| `SystemTheorems.PausedIsNeverStuck` | src/live_capture_controller.cpp:822-841 | when both threads have come to rest while reads are paused and no failure is latched, a writer callback is waiting to be handled |
| `SystemTheorems.PausedCaptureResumes` | src/live_capture_controller.cpp:878-908 | handling it then takes six steps, each of them enabled, after which reads go on |
| `SystemTheorems.ReachableSystem` | src/live_capture_controller.cpp:478-947 | every reachable state of controller, session and ring satisfies the joint invariant |
| `SystemTheorems.AuditRowsArePublished` | src/csv_writer.cpp:398-519 | the number of audit rows enqueued is the number of published batches |
| `CaptureHealth.HealthyCaptureNeverFails` | src/live_capture_controller.cpp:478-947 | a capture fails only for a reason: in every run without a bad end of a session, a failed timer, a backpressure timeout, an error of the output set or a counter at its end, no error is recorded and no message is lost |
| `CaptureHealth.RefusalsHaveCauses` | src/csv_writer.cpp:361-519 | in every reachable state a refused acquire or publish means a requested close, a failed writer, or a batch in hand for which a 64-bit counter has no room |
| `CaptureHealth.MessageIsTaken` | src/csv_writer.cpp:361-519 | while the writer has not failed, the message in hand gets its slot; unless a counter overflows its batch is published, and the log is then all that the pipeline asked to publish |
| `CaptureHealth.CommitAppends` | src/csv_writer.cpp:435-489 | at its commit point a publication that does not overflow a counter appends exactly the batch in hand |
| `CaptureHealth.VerdictAtCommit` | src/csv_writer.cpp:435-453 | with room below the pause marks a publication at its commit point is refused exactly when a 64-bit counter would overflow |
| `CaptureHealth.ReachableIsExplained` | src/csv_writer.cpp:361-596 | every refusal and every denied message has its cause, and the capture has a session or a reconnect timer, in every reachable state |
| `CaptureHealth.CaptureHasSession` | src/live_capture_controller.cpp:622-745 | a capture whose end has not started has a session or an armed reconnect timer |
| `CaptureHealth.TimerReconnects` | src/live_capture_controller.cpp:746-792 | the timer then makes a connecting session whose epoch is the number of connections so far |
| `CaptureHealth.EndDecides` | src/live_capture_controller.cpp:622-719 | by end code, policy count, stop request and exhausted epochs: whether the end of a session latches a failure, starts the end of the run, or arms the reconnect timer |
| `CaptureHealth.TextIsNumbered` | src/verified_websocket_session.cpp:418-455 | a complete message carries the session's epoch and its next sequence number |
| `CaptureHealth.OpenDecides` | src/live_capture_controller.cpp:478-513 | a connection is counted and uses up its epoch; after a stop request it is closed, otherwise should_pause is asked |
| `CaptureHealth.TimerDecides` | src/live_capture_controller.cpp:746-792 | when the reconnect timer fails the run, ends it or connects |
| `CaptureHealth.DenialFails` | src/live_capture_controller.cpp:878-922 | a denied message, a backpressure timeout and a callback that finds the writer failed each fail the capture, and only the first loses a message |
| `CaptureHealth.StopTakesEffect` | src/live_capture_controller.cpp:440-459 | a stop ends a connecting session and the run, closes an open one, and starts the end of the run when there is none |
| `CaptureHealth.FailTakesEffect` | src/live_capture_controller.cpp:923-947 | a failure is latched and does the same |
| `CaptureHealth.EventCountsPolicy` | src/live_capture_controller.cpp:641-652 | only an end by a binary or oversized message adds to the message policy failures |
| `CaptureHealth.PublishedForgets` | src/live_capture_controller.cpp:595-596 | only a published batch starts their count again |
| `CaptureHealth.PauseAnswer` | src/csv_writer.cpp:539-544 | should_pause answers whether three quarters of the slots or bytes are in use |
| `CaptureHealth.ResumeAnswer` | src/csv_writer.cpp:545-550 | below_resume_watermark answers whether less than half of both is |
| `CaptureHealth.JoinIsUnderWay` | src/csv_writer.cpp:572-596 | when the I/O thread waits in join the close has been requested, so that `WriterProgress.JoinReturns` applies |
| `OutcomeCounters.CountersCountStatuses` | src/live_capture_controller.cpp:21-56 | in every reachable state each of the nine outcome counters is the number of messages of the history with that status |
| `SystemSteps.SysStepKeeps` | src/live_capture_controller.cpp:478-947 | every event, every continuation of a handler and every atomic step of either thread keeps the joint invariant |
| `SystemSteps.EventKeepsSystem` | src/live_capture_controller.cpp:622-640 | an event that reaches the I/O thread keeps it |
| `SystemSteps.GoingOnKeepsSystem` | src/live_capture_controller.cpp:531-600 | a handler that goes on after a ring operation keeps it |
| `SystemSteps.ProducerKeepsJoint` | src/csv_writer.cpp:361-596 | an atomic step of the running ring operation keeps what the controller knows of the ring: the operation's results, the room for the next message, the published log, and that a paused controller will hear from the writer |
| `SystemSteps.ConsumerKeepsJoint` | src/csv_writer.cpp:212-306 | so does an atomic step of the writer thread |
| `SystemSteps.AskBegins` | src/live_capture_controller.cpp:531-600 | the commands a handler issues start exactly the operation it then waits for, with the acquired slot filled or given up |
| `SystemSteps.ProducerGrows` | src/csv_writer.cpp:455-512 | the published log grows exactly when a publish commits, by the batch in hand |
| `SystemSteps.ContinuationKeepsRoom` | src/live_capture_controller.cpp:585-599 | a read is issued only with room below the pause marks |
| `SystemProofs.ReactKeepsShape` | src/live_capture_controller.cpp:622-947 | how pausing, latched failure, the reconnect timer, the session's phase and the end of the run exclude each other, kept by every event |
| `SystemProofs.ContinueKeepsShape` | src/live_capture_controller.cpp:478-600 | the same, kept when a handler goes on |
| `SystemProofs.ReactKeepsBooks` | src/live_capture_controller.cpp:622-719 | session numbering and message accounting, kept by every event |
| `SystemProofs.ContinueKeepsBooks` | src/live_capture_controller.cpp:531-600 | the same, kept when a handler goes on |
| `SystemProofs.ReactKeepsEpochs` | src/live_capture_controller.cpp:746-782 | only a successful connection uses up an epoch |
| `SystemProofs.FeedKeepsHistory` | src/live_event_pipeline.cpp:72-190 | the pipeline is at any time what its history of inputs leads to, and that history is ordered |
| `SystemProofs.ContinueFinishes` | src/live_capture_controller.cpp:793-820 | only the return of join ends the run, and a writer error is then recorded |
| `SystemProofs.ReactKeepsPolicy` | src/live_capture_controller.cpp:641-719 | three message policy failures in a row latch a failure, and a run ends only with a latched failure or after a stop request |
| `Backoff.DelayCap` | src/live_capture_controller.cpp:181-199 | the doubling loop computes the initial delay times two to the number of attempts, or the maximum, without overflow |
| `Backoff.SelectDelay` | src/live_capture_controller.cpp:181-217 | the delay lies between half that cap and the cap whatever the jitter source answers, and is its answer when that lies there; the count of attempts saturates |
| `RingRoom.RoomMeansNoCapacityError` | src/csv_writer.cpp:435-443 | below the 75% marks, one more batch of at most two records of 3 MiB meets neither capacity check |
| `RingRoom.ProducerKeepsOperation` | src/csv_writer.cpp:361-565 | each operation of the writer, run one at a time, returns only what it may; a negative answer of should_pause and a positive one of below_resume_watermark mean room |
| `RingRoom.ConsumerKeepsOperation` | src/csv_writer.cpp:163-233 | the writer thread takes neither the held slot nor the room away |
| `WriterRingTheorems.RingRunsAreSafe` | src/csv_writer.cpp:163-233 | in every interleaving no counter subtraction underflows, the batches handed over are a prefix of those published, no arming is answered twice and the failure callback is made at most once |
| `WriterRingTheorems.ReachableInv` | src/csv_writer.cpp:163-596 | every state of every interleaving satisfies the ring invariant |
| `WriterRingTheorems.StepKeeps` | src/csv_writer.cpp:163-596 | every atomic step of either thread keeps it |
| `WriterRingTheorems.SlotsAreDisjoint` | src/csv_writer.cpp:361-396 | the slot the producer holds, and the one it has committed and not yet published, are none of those the consumer may read or clear |
| `WriterRingTheorems.StepRefinesQueue` | src/csv_writer.cpp:163-182 | every atomic step leaves the abstract queue alone, except that the store of the published sequence enqueues the committed slot and the release of a slot dequeues the head |
| `WriterRingTheorems.WriteTakesHead` | src/csv_writer.cpp:212-233 | write_batch is always given the head of the queue |
| `WriterRingTheorems.HandshakeSettles` | src/csv_writer.cpp:195-210 | when the failure handshake is over no publish is past its checks |
| `WriterRingTheorems.FailureIsFinal` | src/csv_writer.cpp:195-210 | after the handshake, or a close, no run of any length publishes anything more |
| `WriterRingTheorems.SpinEnds` | src/csv_writer.cpp:195-210 | the wait for an active publish cannot hang: in every run of both threads that keeps publish_active set the producer takes at most five steps and is never blocked, and its sixth step at the latest clears it |
| `WriterRingTheorems.ExitAccounting` | src/csv_writer.cpp:283-306 | at thread exit the ring is empty, published = written + unwritten for both kinds of rows, and success holds exactly when no output error occurred; then every batch was handed over and every row is in its file |
| `WriterRingTheorems.ArmedMeansNotBelow` | src/csv_writer.cpp:551-565 | outside the two check windows an armed resume flag means the occupancy is not below the resume marks |
| `WriterRingTheorems.QuiescentMeansDrained` | src/csv_writer.cpp:266-280 | a sleeping consumer and an idle producer mean an empty queue and nothing armed |
| `WriterRingTheorems.PendingWakeArrives` | src/csv_writer.cpp:512-517 | a consumer asleep over unconsumed work is woken within four steps of the producer, none of which can block |
| `WriterProgress.BatchIsTaken` | src/csv_writer.cpp:212-281 | a published batch does not wait for ever: in every run of both threads in which its slot is not cleared and no call of the output set fails the writer thread takes at most 23 steps |
| `WriterProgress.JoinReturns` | src/csv_writer.cpp:582-596 | while join waits every run of the writer thread is bounded, by 50 steps for each batch left and 23 more, and until the thread has ended it can take another step |
| `WriterProgress.StepCountsDown` | src/csv_writer.cpp:212-306 | each step of the thread then brings its end closer, through writing, discarding, a latched failure and the close |
| `WriterProgress.JoinIsNotBlocked` | src/csv_writer.cpp:582-596 | neither the mutex nor the output set can hold it up |
| `WriterRingInvariants.InitEstablishes` | src/csv_writer.cpp:310-348 | the invariant holds of a new ring |
| `WriterRingInvariants.CommitSlotKeepsBytes` | src/csv_writer.cpp:455-512 | the byte counters are the sums over the slots they account for, kept by a commit |
| `WriterRingInvariants.PublishCommitKeepsContents` | src/csv_writer.cpp:398-512 | everything published and not consumed sits unchanged in its slot, kept by a commit |
| `WriterRingInvariants.PublishStoreKeepsSignals` | src/csv_writer.cpp:490-519 | no wake-up and no resume is lost while a publish stores its counters and notifies |
| `WriterRingInvariants.ReleaseKeepsBytes` | src/csv_writer.cpp:163-182 | the byte counters, kept while a slot is released |
| `WriterRingInvariants.ReleaseKeepsResume` | src/csv_writer.cpp:142-182 | no resume is lost while a slot is released |
| `WriterRingInvariants.ObserveKeepsSignals` | src/csv_writer.cpp:539-565 | no resume is lost while the producer arms |
| `WriterRingInvariants.StopKeepsStopping` | src/csv_writer.cpp:195-210 | the failure handshake, kept while the failure is latched and the files are closed |
| `WriterRingInvariants.SleepKeepsSignals` | src/csv_writer.cpp:266-280 | no wake-up is lost while the consumer goes to sleep and wakes |
| `ReplayAgreement.AgreementIsExact` | src/event_processor.cpp:267-418 | for every live run and symbol: the audit file that every prefix of the run writes is replayed to its live order-book rows if and only if no event audited while replay holds a book live has dropped is a diff which that book applies or a refresh which it finds older |
| `ReplayAgreement.LiveAndReplayAgree` | src/market_data_replay.cpp:591-678 | the whole run, when it never breaks: its audit file is read back exactly, and replaying it emits exactly the live order-book rows |
| `ReplayAgreement.RunSimulates` | src/event_processor.cpp:267-418 | the same from any related pair of live pipeline and replay state, with or without a held book |
| `ReplayAgreement.BrokenRunDiverges` | src/event_processor.cpp:301-311 | a run that breaks has a prefix whose audit rows are replayed to something else |
| `ReplayAgreement.FirstBreakShows` | src/event_processor.cpp:301-311 | the file of a run that ends with its first break is replayed to something else |
| `ReplayAgreement.MessageExact` | src/live_event_pipeline.cpp:72-190 | one message: the rows are the same exactly when it does not break, and then live and replay stay related, with the held book as specified |
| `ReplayAgreement.HeldDepthExact` | src/spot_book.cpp:171-193 | one depth event while replay holds a book: one side emits a row and the other does not, or replay is out of sequence numbers, exactly when the held book applies the diff or finds the refresh older; otherwise the rows agree, and so do the books unless the diff was stale |
| `ReplayAgreement.BreaksOnExactly` | src/spot_book.cpp:171-347 | the two breaking events spelled out: a refresh with a smaller identifier than the held book's, and a diff that is newer, continues the chain or bridges the range, and after which no bid crosses an ask |
| `ReplayAgreement.RejectedDiffOpens` | src/live_event_pipeline.cpp:120-129 | a diff rejected before audit leaves replay holding exactly the book that live has dropped |
| `ReplayAgreement.TeardownCloses` | src/live_event_pipeline.cpp:62-70 | the end of a session brings the two together, whatever is held |
| `ReplayAgreement.NoRejectionNoBreak` | src/event_processor.cpp:301-311 | a run in which no diff is rejected before audit while the book is valid never breaks |
| `DivergingRuns.ContinuingDiffDiverges` | src/live_event_pipeline.cpp:120-129 | on either venue: a refresh, a diff rejected with its envelope and the diff that continues the refresh make an audit file whose replay is not the live rows |
| `DivergingRuns.OlderRefreshDiverges` | src/spot_book.cpp:171-193 | the same with an older refresh as the third message |
| `LiveReplay.MessageSimulates` | src/live_event_pipeline.cpp:72-190 | a message that rejects no diff keeps live and replay in step, whichever symbol it is for: replay may hold a book that live has invalidated, but then its epoch is behind every message to come |
| `LiveReplay.RunIsWritable` | src/live_event_pipeline.cpp:72-190 | the audit rows of a symbol over a run are valid, of one venue and symbol, and increasing in (epoch, sequence) |
| `LiveReplay.ReplayEndDecides` | src/market_data_replay.cpp:591-678 | replay succeeds only on a file read to a clean end with at least one row; how it ends otherwise |
| `LiveReplay.ReplayOfRow` | src/market_data_replay.cpp:591-678 | replay goes on after a row exactly when its event is processed without an error and not rejected, and emits its row |
| `LiveReplay.ReplayStopsAtFirst` | src/market_data_replay.cpp:591-678 | replay of a file is what it emits up to the first row it cannot process, and nothing after it |
| `BookNumbers.BookRowsAreNumbered` | src/event_processor.cpp:358-417 | over every run the i-th order-book row of a symbol reads, column by column, as a row with sequence number i, across epochs, of a printable book |
| `ReplayLoop.ReplayFile` | src/market_data_replay.cpp:591-678 | the replay of a file is what its bytes determine, whatever the chunks, unless a read fails |
| `LivePipeline.MessageIsGood` | src/live_event_pipeline.cpp:72-190 | a message with later metadata and at most 1 MiB keeps the pipeline good; its batch fits two records, and only a symbol out of sequence numbers is fatal |
| `LivePipeline.MessageIsChecked` | src/live_event_pipeline.cpp:40-60 | exactly which messages are refused for their metadata, and that more than 1 MiB is; a refused message changes nothing |
| `LivePipeline.ContextNeverRejected` | src/event_processor.cpp:112-137 | the processor's context check accepts every message the pipeline lets in |
| `LivePipeline.InvalidateKeeps` | src/live_event_pipeline.cpp:62-70 | invalidating every book keeps the pipeline good |
| `LivePipeline.EnterKeeps` | src/live_event_pipeline.cpp:91-98 | after a message has entered, every symbol is strictly behind it |
| `EventProcessor.ProcessKeepsState` | src/event_processor.cpp:267-418 | a processed event keeps the state good, meets no formatting error, emits a book row exactly when the sequence number advances and an audit row exactly when a live event is not rejected |
| `EventProcessor.ErrorChangesNothing` | src/event_processor.cpp:358-405 | any processing error leaves the state unchanged and the batch empty |
| `EventProcessor.ContextDecides` | src/event_processor.cpp:112-137 | exactly which events the context check refuses |
| `EventProcessor.AuditedExactly` | src/event_processor.cpp:47-76 | exactly which parser errors are audited, and the status of every live event |
| `BookColumns.EmittedRowShowsBook` | src/event_processor.cpp:358-417 | an emitted row, split at its commas, reads as the event's timestamp, the next sequence number, the symbol's instrument, the kind of message, the side it updates and the committed book |
| `BookColumns.BookRowReads` | src/csv_formatter.cpp:312-361 | a formatted row has 26 fields that read, in the order of the documented header, as the row: five bid prices, bid sizes, ask prices and ask sizes, with zero past the last level |
| `BookColumns.SplitListed` | src/csv_formatter.cpp:175-202 | splitting at commas inverts listing fields without commas |
| `EventProcessor.GoodBookFormats` | src/csv_formatter.cpp:312-361 | a book that satisfies the book invariant meets none of the formatter's errors |
| `LiveObjects.SymbolCell.ProcessEvent` | src/event_processor.cpp:267-418 | the in-place processor computes exactly the state, result and batch of the specification |
| `LiveObjects.SymbolCell.ProcessDepthEvent` | src/event_processor.cpp:341-417 | the candidate book replaces the book only when its row has been numbered and formatted |
| `LiveObjects.PipelineObject.ProcessText` | src/live_event_pipeline.cpp:72-190 | the pipeline object computes exactly the specification, in place |
| `LiveObjects.PipelineObject.InvalidateEvery` | src/live_event_pipeline.cpp:62-70 | the loop invalidates every symbol and nothing else |
| `AuditFile.FileRoundTrip` | src/market_data_replay.cpp:363-567 | every list of valid rows of one venue and symbol with increasing (epoch, sequence), whatever bytes the payloads hold, is read back exactly, followed by a clean end |
| `AuditFile.ReadRowsBack` | src/market_data_replay.cpp:184-219 | the same from any file identity on |
| `AuditFile.FrameFindsHeader` | src/market_data_replay.cpp:125-176 | the header is framed as the first record of every file |
| `AuditSoundness.ReadFileIsSound` | src/market_data_replay.cpp:125-219 | whatever the bytes of a file, the rows read from it are valid, of one venue and symbol and strictly increasing; written again they are read back exactly |
| `AuditSoundness.CleanFileIsAll` | src/market_data_replay.cpp:125-219 | a file read to a clean end is the header and one line for each row: no line is skipped |
| `AuditSoundness.WritableMeansInOrder` | src/market_data_replay.cpp:521-567 | the rows a file can hold, stated pairwise |
| `AuditSoundness.SequenceDecides` | src/market_data_replay.cpp:521-567 | which of the four sequence errors is reported, and when |
| `AuditSoundness.DecodeSound` | src/market_data_replay.cpp:363-518 | every line the decoder accepts is eight fields that read as the row and its payload, quoted with doubled quotes; and the row is one the formatter accepts |
| `AuditSoundness.UnescapeSound` | src/market_data_replay.cpp:469-497 | what unescapes to a payload is exactly the escaped payload, within its limit |
| `AuditSoundness.SplitSound` | src/market_data_replay.cpp:375-396 | what splits into fields is exactly those fields joined |
| `CsvDecode.FrameFindsRow` | src/market_data_replay.cpp:271-361 | a formatted row is framed as itself, whatever follows |
| `CsvDecode.DecodeFindsRow` | src/market_data_replay.cpp:363-518 | decoding a formatted row gives back the row, payload bytes included |
| `CsvDecode.UnescapeEscaped` | src/csv_formatter.cpp:66-82 | undoing the doubling of quotes inverts it |
| `CsvDecode.SplitJoined` | src/market_data_replay.cpp:375-396 | splitting a joined row gives back its fields |
| `CsvDecode.AuditFieldsParse` | src/market_data_replay.cpp:398-467 | every field text parses back to its value |
| `CsvFormat.AuditRowFits` | src/csv_formatter.cpp:259-310 | a row with a payload of at most 1 MiB always fits the record limit |
| `CsvFormat.BookRowFits` | src/csv_formatter.cpp:312-361 | an order-book row always fits the record limit |
| `CsvFormat.FormatsExactly` | src/csv_formatter.cpp:259-361 | exactly which rows the two formatters accept |
| `Decimal.IntTextRoundTrip` | src/market_data_replay.cpp:30-45 | decimal text of an integer parses back to it in every range that holds it |
| `CsvBuffer.RecordBuffer.FormatAuditRow` | src/csv_formatter.cpp:259-310 | the chain of appends under the size limit computes exactly the specified text or error, and leaves the buffer empty on error |
| `CsvBuffer.RecordBuffer.FormatBookRow` | src/csv_formatter.cpp:312-361 | the same for order-book rows |
| `CsvBuffer.RecordBuffer.AppendQuoted` | src/csv_formatter.cpp:66-82 | the quoting loop succeeds exactly when the quoted field fits |
| `CsvBuffer.RecordBuffer.AppendColumn` | src/csv_formatter.cpp:175-202 | five prices or quantities, missing ones as zero |
| `CsvBuffer.ValidSide` | src/csv_formatter.cpp:138-162 | the index loop accepts exactly the sides of at most five positive levels in strict order |
| `CsvBuffer.ValidBook` | src/csv_formatter.cpp:164-173 | accepts exactly two such sides that do not cross |
| `ReplayReader.ReadBack` | src/market_data_replay.cpp:239-361 | what was written is read back whatever the size of the chunks, unless a read fails |
| `ReplayReader.ReadAll` | src/market_data_replay.cpp:125-219 | reading a file in chunks gives exactly its contents, unless a read fails |
| `ReplayReader.Open` | src/market_data_replay.cpp:125-176 | opening succeeds exactly on the header and leaves the rest of the file to read |
| `ReplayReader.Reader.ReadByte` | src/market_data_replay.cpp:240-268 | the next byte of the file over chunk boundaries and interrupted reads, or the end exactly when there is none |
| `ReplayReader.Reader.ReadLogicalRecord` | src/market_data_replay.cpp:271-361 | the framing loop finds exactly the record that the specification frames |
| `ReplayReader.Reader.Next` | src/market_data_replay.cpp:184-219 | one row, the end, or the first error, which stays |
| `ReplayReader.DecodeRecord` | src/market_data_replay.cpp:363-518 | the decoding loops compute the specified row or error |
| `ReplayReader.SplitFields` | src/market_data_replay.cpp:375-396 | the column loop splits as specified |
| `ReplayReader.UnescapeInto` | src/market_data_replay.cpp:469-497 | the payload loop unescapes in place without overrunning its buffer |
| `TopFive.ApplyUpdatesIsBestFive` | src/spot_book.cpp:122-162 | for a sorted side and price-unique updates the result is exactly the best five of the side overridden by the updates, zero quantities removed |
| `TopFive.UpdateOrderIrrelevant` | src/spot_book.cpp:122-162 | any permutation of the updates gives the same result |
| `TopFive.BestFiveIsUnique` | src/spot_book.cpp:122-162 | a side has only one best five |
| `TopFive.ChangeShownCorrect` | src/spot_book.cpp:122-148 | the first pass changes and erases exactly the visible prices the updates name |
| `TopFive.InsertNewCorrect` | src/spot_book.cpp:150-162 | the second pass inserts exactly the new prices that belong to the best five |
| `BookArrays.ApplyUpdatesInPlace` | src/spot_book.cpp:122-162 | the array version, shifting in place, computes the specified side |
| `BookArrays.InsertLevel` | src/spot_book.cpp:74-102 | inserting into the array places the level and drops the worst of six |
| `BookArrays.EraseLevel` | src/spot_book.cpp:61-72 | erasing shifts the rest up by one |
| `BookArrays.FindLevel` | src/spot_book.cpp:50-59 | the index of a price, or the size |
| `BookArrays.MakeRefreshSide` | src/spot_book.cpp:104-120 | a refresh copies its levels |
| `BookState.TopFiveBook.Refresh` | src/spot_book.cpp:171-193 | a refresh replaces the book unless it is older |
| `BookState.TopFiveBook.AcceptDiff` | src/spot_book.cpp:195-213 | an accepted diff replaces both sides, or invalidates the book when they would cross |
| `BookState.SpotBookState.ApplyDiff` | src/spot_book.cpp:240-262 | the Spot range bridge as specified |
| `BookState.UsdMBookState.ApplyDiff` | src/spot_book.cpp:304-347 | the USD-M chain as specified |
| `BookState.UsdMBookState.ApplyRefresh` | src/spot_book.cpp:294-302 | a refresh resets the chain only when it is applied |
| `Sequencer.EventKeepsBook` | src/spot_book.cpp:171-213 | every event keeps at most five positive, ordered, uncrossed levels per side, and a chain only with a valid book |
| `Sequencer.ChainedDiffExtendsOrClears` | src/spot_book.cpp:304-347 | a diff on an established chain is never stale: it extends the chain exactly from the last update, or invalidates the book and clears the chain |
| `Sequencer.ReachableBookIsGood` | src/spot_book.cpp:171-347 | the book invariant in every state of every run, with invalidations in between |
| `Continuity.DiffVerdict` | src/spot_book.cpp:240-347 | the five verdicts on a diff by identifiers and levels, for both venues, and what each does to the book: a missing range invalidates it |
| `Continuity.RefreshVerdict` | src/spot_book.cpp:171-193 | the two verdicts on a refresh |
| `Continuity.ValidMissesNothing` | src/spot_book.cpp:240-347 | over every run in which the book stays valid: no delivered event is ahead of it, and every update between its first and last state was brought by an event |
| `Continuity.GapLastsUntilRefresh` | src/spot_book.cpp:253-258 | a diff that misses updates leaves the book invalid until the next refresh, whatever else is delivered |
| `Continuity.InvalidUntilRefresh` | src/spot_book.cpp:240-347 | only a refresh makes a book valid |
| `Continuity.ValidAfterEvent` | src/event_processor.cpp:267-418 | exactly when the book is valid after an event, over rejected, later-connection, stale, gapped and crossing events |
| `Continuity.ValidMeansCurrent` | src/event_processor.cpp:267-418 | a valid book is at or past every processed diff, and after an event of a later connection it is that connection's refresh |
| `Continuity.EmitsExactly` | src/event_processor.cpp:341-417 | exactly which events emit a row |
| `Exchange.VisibleBookIsSound` | src/spot_book.cpp:122-213 | against any exchange history, with truthful diffs and refreshes: while the book is valid each visible level is the exchange's level at the last update, and every exchange level at or better than the horizon is visible |
| `Exchange.VisibleBookIsSoundFromStart` | src/spot_book.cpp:240-347 | the same from the empty book, for Spot and USD-M |
| `Exchange.BestPriceIsExact` | README.md:10-13 | while any visible level lies within the horizon the best visible price is the exchange's best |
| `Exchange.RefreshSetsHorizon` | src/spot_book.cpp:171-193 | right after a refresh every visible level lies within the horizon |
| `Exchange.TruthfulDiffNeverCrosses` | src/spot_book.cpp:195-213 | following an uncrossed exchange the book never crosses |
| `FileSink.Sink.Append` | src/buffered_file_sink.cpp:176-216 | at any time the file is a prefix of the header and the offered records that holds every row counted as written; the record is counted exactly when accepted, refused as invalid exactly when it is, and otherwise fails exactly when the system answers a write badly; after the first error nothing more reaches the file |
| `FileSink.Sink.WriteAll` | src/buffered_file_sink.cpp:296-324 | under short, interrupted, failing and lying writes a prefix of the bytes reaches the file, and all of them on success; it fails exactly at the first bad answer |
| `FileSink.Sink.FlushBuffer` | src/buffered_file_sink.cpp:278-294 | on success the buffer is in the file and its rows are counted |
| `FileSink.Sink.Flush` | src/buffered_file_sink.cpp:218-226 | without an error the file is the header and every offered record |
| `FileSink.Sink.Close` | src/buffered_file_sink.cpp:228-247 | after a close without an error the file is the header and every offered record, all counted |
| `FileSink.Sink.Open` | src/buffered_file_sink.cpp:101-168 | a sink exists exactly when no write of its header is answered badly, and then with its header written |
| `OutputSet.OutputSet.WriteBatch` | src/csv_output_set.cpp:313-363 | both rows are handed to the target's sinks or the first error is latched; the error says whether the set was closed, the target or the batch was bad, or which file failed; with or without an error no other target's sinks change, and the contract the writer thread relies on holds |
| `OutputSet.OutputSet.FlushAll` | src/csv_output_set.cpp:365-401 | without an error every accepted row is in its file |
| `OutputSet.OutputSet.CloseAll` | src/csv_output_set.cpp:403-434 | without an error every file is its header and its records |
| `OutputSet.OutputSet.Metrics` | src/csv_output_set.cpp:448-466 | the sums over all targets |
| `OutputSet.Column.Append` | src/buffered_file_sink.cpp:176-216 | one sink changes and the others stay as they were |
| `DepthParser.ParseDepth` | src/spot_payload_parser.cpp:927-953 | from the decoded fields on, accepted are exactly the messages with acceptable sides, U <= u in a diff and on USD-M, pu < u on USD-M, and in a partial book every bid below every ask; each of the three kinds of error is reported exactly when the earlier checks pass and its own fails; an accepted message satisfies the contract the book relies on |
| `DepthParser.FinalCheckDecides` | src/spot_payload_parser.cpp:927-953 | of a message with acceptable sides: the range error when U > u, or pu >= u on USD-M; otherwise the crossing error when some bid of a partial book is not below some ask |
| `DepthParser.VerdictNamesFault` | src/spot_payload_parser.cpp:278-460 | exactly when each fault of a level is reported |
| `DepthParser.LevelParser.ParseLevels` | src/spot_payload_parser.cpp:271-466 | no error exactly when the levels are good, within capacity, without a repeated price and, in a partial book, in order; then the updates are exactly the levels; otherwise the error is that of the first level after an acceptable prefix; the table is never full |
| `DepthParser.LevelParser.TakeLevel` | src/spot_payload_parser.cpp:278-460 | the checks on one level in order; the update array is never overrun |
| `DepthParser.DuplicateTable.Insert` | src/spot_payload_parser.cpp:207-228 | a duplicate is reported exactly when the key was inserted earlier in the same message |
| `DepthParser.DuplicateTable.BeginMessage` | src/spot_payload_parser.cpp:194-205 | the table becomes empty, also when the generation wraps around |
| `DepthParser.AcceptedDepthIsGood` | src/spot_payload_parser.cpp:927-953 | accepted levels are ordered, unique, positive and uncrossed, with `U <= u` and `pu < u` |
| `DepthParser.AcceptableStep` | src/spot_payload_parser.cpp:278-460 | one more level is acceptable exactly when its own checks pass |
| `ProbeTable.VacantMeansAbsent` | src/spot_payload_parser.cpp:214-227 | in linear probing a vacant slot ends the search: the key is not in the table |
| `ProbeTable.InsertKeepsChains` | src/live_subscription.cpp:267-284 | storing a key at the first vacant slot keeps every key reachable |
| `Subscription.StreamNamesAreDistinct` | src/live_subscription.cpp:18-56 | a stream name determines its symbol and its kind |
| `Subscription.LowercaseText` | src/live_subscription.cpp:18-56 | the lower case of a symbol, byte by byte |
| `Subscription.LiveSubscription.FindRoute` | src/live_subscription.cpp:242-265 | exactly the route of that name or none, like a linear scan |
| `Subscription.LiveSubscription.InsertRoute` | src/live_subscription.cpp:267-284 | succeeds exactly when the name is new and the table not full |
| `Subscription.Create` | src/live_subscription.cpp:121-209 | every symbol set that validation accepts, and no other, gets all its routes and a target of the precomputed length; neither the size limit nor the route table can fail |
| `Subscription.CheckedTargetSize` | src/live_subscription.cpp:72-113 | the exact size, or the overflow exactly when it does not fit |
| `Subscription.TargetTextSize` | src/live_subscription.cpp:157-204 | the built target has the precomputed length |
| `Subscription.TargetFits` | src/live_subscription.cpp:145-155 | the 8192-byte limit cannot be hit |
| `Subscription.TargetIsJoined` | src/live_subscription.cpp:157-204 | the target is the prefix and the three stream names of every symbol, in order, with slashes between |
| `Subscription.EveryStreamIsRouted` | src/live_subscription.cpp:157-204 | every stream of every symbol has its route, in order |
| `FixedPoint.ParseDecimal` | src/fixed_point.cpp:25-90 | a string is accepted exactly when it is digits with an optional non-empty fraction and the number it denotes, times 10^8, is an integer of 63 bits; the result is that integer, and no intermediate step overflows |
| `FixedPoint.DiscardedDigit` | src/fixed_point.cpp:68-77 | with a non-zero digit after the eighth no integer is the exact result |
| `FixedPoint.LargeWhole` | src/fixed_point.cpp:40-53 | a whole part above the limit is too large whatever follows, so rejecting early is exact |
| `FixedPoint.PartsDenote` | src/fixed_point.cpp:55-84 | the whole part and the padded fraction denote the number exactly |

## Left out

- JSON traversal, minification and the envelope parser: foreign parser calls; only their results are used.
- The order of a message's JSON fields, missing and repeated fields and the trade fields of the payload parser.
- DNS, TCP, TLS, WebSocket framing and handshakes: only their completion events appear.
- C++ memory orders: sequential consistency is the memory model.
- The writer ring, the controller and its session are transition functions over values, not classes: the slot array is a sequence of 4096 slots indexed modulo its length, because two threads interleave inside each operation.
- Capacity and high-water metrics, allocation failures, the writer's destructor, a failed post of the resume callback, and a stop requested from a control frame.
- Stale callbacks of earlier sessions only change a counter; generations are not compared one by one.
- Timers: the reconnect, stability and backpressure timers may fire at any time; `Backoff` gives the delay that is asked for.
- The detailed error codes of the controller and of rejected envelopes.
- Opening the output set: directories, file names, dates and the rollback of a failed start.
- Replay of a file whose symbol is not that of its output target, and write errors of the replay output.
- `src/symbol_identity.cpp`: the verdict of symbol validation is an input; accepted symbols are taken to be distinct, `[A-Z0-9]{1,32}`, with positive instrument ids.
- Command line, metrics printing and the run loop.
- DepthParser.ParseDepth: starts from decoded prices, quantities and identifiers.
- LiveObjects.SymbolCell.ProcessEvent: the book inside the symbol state is a value, as the source copies it into a candidate; the in-place arrays are in `BookArrays` and `BookState`.
