# A verified model of the proxy's protocols and algorithms

The proxy keeps what it saw, shows what it is doing, and stops without losing work. This project
models the parts of it where that is hardest to get right and proves what they promise, for all
inputs, runs and interleavings.

| area | files | what is modelled |
|---|---|---|
| raw capture | `Frames`, `Captures`, `CaptureStore`, `CaptureSystem`, `CaptureAccounts`, `CaptureFiles`, `CaptureLedger`, `CapturePositions`, `CaptureHolders`, `CaptureRuns`, `CaptureGuarantees`, `CapturePromises`, `CaptureWriter` | the shared store with its byte reservations, bounded queue and one writer; each request's capture; all interleavings of producers, writer and closers, with writes that fail or stop short |
| repetition detection | `Words`, `RepetitionDetector` | the prefix function over a sliding buffer, and the theory of periods that makes its answer right |
| subscriber order | `SubscriberOrder`, `Subscribers` | the layered sort with deterministic ties and cycle rejection |
| tool-pair repair | `ToolPairs` | the one-pass edit in place and the drop of emptied turns |
| history archive | `Archive`, `ArchiveRaises`, `ArchiveStore`, `SegmentNames` | append-only segments with rollover, restart, appends that raise, and chunked reading |
| history index | `Cursor`, `Pagination`, `HistoryIndex`, `HistoryRaces`, `HistoryReads` | keyset paging with an encoded cursor; the archive states with their queue and worker, and the database methods taken apart |
| live footer | `Text`, `FairGrowth`, `Footer`, `FooterGroups` | grouping by model and the two-pass width allocation |
| shutdown | `Shutdown`, `Admission`, `Serving` | the signal ladder, the descent, the admission barrier in both listener compositions, and requests that arrive meanwhile |
| configuration reload | `ConfigTree`, `ConfigPinning`, `ConfigReload`, `ConfigProvider` | restart-only values on nested trees |
| log tokens | `InertToken`, `ResponseDisplay` | the escaping printer and the merging of neighbours on a log line |

Code that updates fields is a class whose methods are tied to functions of the old state; the
theorems are about those functions and the step systems built from them. A step is one critical
section under a lock, one file operation, one database method, or the code between two awaits.

What is assumed: a frame is self-delimiting, as zstd frames (RFC 8878, section 3) and CBOR sequences
(RFC 8742, section 2) are, and every proper prefix of it is recognised as unfinished; archive frames
are longer than their four-byte magic number, and different ones have different digests; terminal widths add up, a space is one cell, and
cropping yields exactly the cells asked for; letters and digits exclude the backslash and the
ellipsis; a written byte is one the operating system reported as written; nothing else writes to the
capture and archive files. Text in the history index is its UTF-8 bytes, which is how SQLite orders
it. The provider runs on Python 3.14, where asking whether a path is a file never raises.

Where the code and its own words differ, the code is followed:

- `src/app/pipeline/anthropic_request_hook.py:189-195` says that when every turn would be dropped the
  orphan travels. The contents have been emptied by then: the turns stay, the orphan does not
  (`ToolPairs.AllEmptiedLeavesEmptyTurns`).
- A second call of the capture store's `close` returns at once, while the first may still be waiting
  (`CapturePromises.SecondCloseDoesNotWait`; the first does wait: `CapturePromises.CloseWaitsForAll`).
- With one repetition asked for, the detector overlooks a buffer that is its own root
  (`RepetitionDetection.SingleRepetitionOverlooked`; exactly when: `RepetitionDetection.DetectIsExact`).
- A segment number of seven digits is written but not found again
  (`HistoryArchive.RestartFindsCurrent`, `HistoryArchive.RestartForgetsLongNumbers`).
- A row can stay archiving with nobody to deal with it: when its call is cancelled after its begin,
  when it is put into the queue after the worker's end, or when the worker dies of an error while it
  records a failure. `HistoryIndex.StuckExactly` and `HistoryIndex.QueueStrandsExactly` say exactly when.
- Between the two statements of `_begin_archive` a completion can commit, after which flag and state
  disagree (`HistoryRaces.DisagreesExactly`); between those of `_complete_archive` the row can be
  persisted anew, and is then archived on a reference nobody has read (`HistoryRaces.MisreadExactly`).
- Reading a reference fails if and only if, when its frame was appended, the file held bytes past
  the remembered size that the frame does not repeat (`HistoryArchiveRaises.ReadsBackExactly`). A
  write that raised leaves such bytes (`HistoryArchiveRaises.ShortWriteBreaksReferences`), and a
  restart past six digits finds them (`HistoryArchiveRaises.LongNumberBreaksReferences`).
- A pin set after the begin does not stop a row from being archived (`HistoryIndex.PinnedWhenArchived`).


## Model

| member | source | states |
|---|---|---|
| `CaptureStore.RawRequestCapture.constructor` | src/app/observability/raw_capture.py:506-539 | a new capture records, has nothing pending, lost or proven |
| `CaptureStore.RawRequestCapture.Admits` | src/app/observability/raw_capture.py:541-547 | an event goes on to the store exactly if the capture still records; otherwise its type is noted as missing and nothing else changes |
| `CaptureStore.RawRequestCapture.NoteWriterFrameQueued` | src/app/observability/raw_capture.py:551-553 | one more frame of this capture is pending, nothing else changes |
| `CaptureStore.RawRequestCapture.DropLocked` | src/app/observability/raw_capture.py:614-621 | a loss switches the capture off, keeps the first reason and event and the first writer error, and notes the type as missing |
| `CaptureStore.RawRequestCapture.NoteWriterFrameCompleted` | src/app/observability/raw_capture.py:555-568 | a frame the writer has dealt with is no longer pending, and is either a loss or evidence in the ledger |
| `CaptureStore.RawRequestCapture.HasWriterFailure` | src/app/observability/raw_capture.py:606-608 | whether a writer error has been recorded |
| `CaptureStore.RawRequestCapture.NoteIncompleteEvent` | src/app/observability/raw_capture.py:623-627 | only the first incomplete event is kept |
| `CaptureStore.RawRequestCapture.BeginFinish` | src/app/observability/raw_capture.py:764-768 | only the first call of finish goes on; the capture is finished from then on |
| `CaptureStore.RawRequestCapture.ObserveNow` | src/app/observability/raw_capture.py:815-886 | the projection shown to the rest of the program, every attempt in it once and by rising number; BitsAreBacked and AttemptBitsAreBacked tie its bits to frames on disk |
| `CaptureStore.RawCaptureStore.constructor` | src/app/observability/raw_capture.py:202-222 | an open store counts the bytes found on disk and has no reservations |
| `CaptureStore.RawCaptureStore.ValidateExistingPath` | src/app/observability/raw_capture.py:367-382 | the first append to a path reads its file once and poisons the path if it does not read |
| `CaptureStore.RawCaptureStore.AppendFrame` | src/app/observability/raw_capture.py:295-338 | one locked verdict: a frame is refused for the first reason that applies, or it is queued, reserved for its path and in total, and counted as pending, all at once |
| `CaptureStore.RawCaptureStore.VerdictOn` | src/app/observability/raw_capture.py:299-333 | the order of the refusals: poisoned path, stat failure, file quota, total quota, full queue |
| `CaptureStore.RawCaptureStore.Complete` | src/app/observability/raw_capture.py:466-490 | what was not written is released from the path and the total, an empty reservation is dropped, a short write poisons the path, and the capture is told |
| `CaptureStore.RawCaptureStore.BeginClose` | src/app/observability/raw_capture.py:397-401 | only the call that finds the store open goes on to wait |
| `CaptureStore.RawCaptureStore.AppendEvent` | src/app/observability/raw_capture.py:541-549 | one uninterrupted append_event: a refused event switches its capture off for the store's reason |
| `CaptureWriter.CaptureDirectory.AppendBytes` | src/app/observability/raw_capture.py:430-434 | one unbuffered append puts exactly the accepted bytes at the end of the file |
| `CaptureWriter.WriteItem` | src/app/observability/raw_capture.py:406-460 | one turn of the write loop: poisoned paths and failed captures are skipped without a write; otherwise the outcome follows from what the file system took |
| `CaptureWriter.ExportRequest` | src/app/observability/raw_capture.py:387-395 | the export reads back as exactly the records of one request, in order; a faulty file raises |
| `Frames.ReadRecords` | src/app/observability/raw_capture.py:889-915 | reading chunk by chunk with carry-over is parsing frame by frame, up to the same fault |
| `Frames.ParseFrames` | src/app/observability/raw_capture.py:889-915 | frames written one after another read back as their records |
| `Frames.ParseConcat` | src/app/observability/raw_capture.py:889-915 | what follows a readable stream reads as if it stood alone |
| `Frames.ParseTorn` | src/app/observability/raw_capture.py:901-904 | a frame cut short reads as a fault and yields nothing |
| `CaptureRuns.StepKeeps` | src/app/observability/raw_capture.py:267-347 | every step of producers, writer and closers keeps the whole invariant: order, reservations, files, counters and positions |
| `CaptureRuns.RunsKeep` | src/app/observability/raw_capture.py:199-490 | every run keeps the invariant, whatever the interleaving and whichever writes fail or stop short |
| `CaptureGuarantees.ReservationsAreExact` | src/app/observability/raw_capture.py:295-338 | per path and in total, the reservation is the bytes on disk plus the accepted bytes still on their way; without an entry none are |
| `CaptureGuarantees.QuotasHold` | src/app/observability/raw_capture.py:299-326 | no file and no total exceeds the larger of its quota and its size at start, and the writer's reservation lookup never fails |
| `CaptureGuarantees.FilesAreWellShaped` | src/app/observability/raw_capture.py:406-460 | every file is its initial contents, then whole frames in the order accepted, then at most one torn tail, which only a poisoned path has |
| `CaptureGuarantees.TornFilesStay` | src/app/observability/raw_capture.py:411-418 | a file that ends in a torn frame never changes again, in any continuation of the run |
| `CapturePromises.FilesReadBack` | src/app/observability/raw_capture.py:889-915 | a file that read at start reads back as its old records and then the kept events, with a fault exactly if it ends torn |
| `CapturePromises.UnreadableFilesStay` | src/app/observability/raw_capture.py:367-382 | a file that does not read at start is never written to |
| `CapturePromises.KeptIsPrefix` | src/app/observability/raw_capture.py:419-425 | until its first drop everything accepted is written, and after it nothing |
| `CapturePromises.NoHoles` | src/app/observability/raw_capture.py:541-549 | with one producer at a time, what is on disk of a capture is a prefix of what it emitted |
| `CapturePromises.NothingDroppedMeansAllKept` | src/app/observability/raw_capture.py:541-568 | a quiet capture without a recorded loss has every emitted event on disk, with any number of producers |
| `CapturePromises.NothingDroppedMeansInOrder` | src/app/observability/raw_capture.py:541-568 | with one producer it has exactly the emitted events, in order |
| `CapturePromises.CompleteMeansAllKept` | src/app/observability/raw_capture.py:764-813 | when finish returns COMPLETE, an emitted event is on disk if and only if no unfinished append holds it |
| `CapturePromises.NothingDroppedExactly` | src/app/observability/raw_capture.py:541-568 | the same for every capture without a recorded loss and with no frame pending, with any number of producers |
| `CaptureHolders.RunsKeepExclusive` | src/app/observability/raw_capture.py:541-549 | in every run no event is held by two appends, and none that is held has been accepted |
| `CapturePromises.BitsAreBacked` | src/app/observability/raw_capture.py:822-861 | request, response and upstream are reported available if and only if committed frames show them |
| `CapturePromises.AttemptBitsAreBacked` | src/app/observability/raw_capture.py:570-604 | an attempt is wire-eligible if and only if committed frames show every part of it and no early end |
| `CapturePromises.EvidenceIsCommitted` | src/app/observability/raw_capture.py:564-566 | each piece of evidence comes from a frame that was written whole and without an error |
| `Captures.AttemptsBacked` | src/app/observability/raw_capture.py:570-604 | each bit of an attempt is exactly what its committed frames show, the header bits what the last one shows |
| `Captures.FlagsBacked` | src/app/observability/raw_capture.py:570-578 | each flag of the ledger is exactly what the committed frames show |
| `CapturePromises.CloseWaitsForAll` | src/app/observability/raw_capture.py:397-404 | the close that closed the store returns only with every accepted frame dealt with and no capture pending |
| `CapturePromises.RestedIsResolved` | src/app/observability/raw_capture.py:384-385 | an empty queue and a resting writer mean that no frame is unresolved |
| `CapturePromises.ClosedAcceptsNothing` | src/app/observability/raw_capture.py:295-297 | a closed store accepts nothing more |
| `CapturePromises.NothingPendingExactly` | src/app/observability/raw_capture.py:384-404 | in every reachable state nothing is pending if and only if the queue is empty and the writer holds no frame |
| `CapturePromises.SecondCloseDoesNotWait` | src/app/observability/raw_capture.py:397-401 | in every reachable closed state another call of close returns at once, and leaves no frame unresolved exactly in that case |
| `CapturePromises.AnyQueueCanBeClosedOn` | src/app/observability/raw_capture.py:397-404 | every reachable state with a frame in the queue comes to that while the first close waits |
| `CapturePromises.SecondCloseOvertakesFirst` | src/app/observability/raw_capture.py:397-404 | so a second call can return before the first |
| `RepetitionDetection.RepetitionDetector.constructor` | src/.archived/app/repetition_detector.py:11-21 | starts with an empty buffer and the given thresholds |
| `RepetitionDetection.RepetitionDetector.Feed` | src/.archived/app/repetition_detector.py:23-42 | keeps the last buffer_size characters and answers for that buffer |
| `RepetitionDetection.PrefixArray` | src/.archived/app/repetition_detector.py:26-33 | entry i is the longest proper border of text[0..i]; at most 2n fallbacks and advances in all |
| `RepetitionDetection.DetectIsSound` | src/.archived/app/repetition_detector.py:34-42 | a reported pattern is the buffer's primitive root with its exponent, meeting both thresholds |
| `RepetitionDetection.DetectIsComplete` | src/.archived/app/repetition_detector.py:36-42 | with at least two repetitions asked for, every such repetition is reported as it is |
| `RepetitionDetection.DetectIsExact` | src/.archived/app/repetition_detector.py:36-42 | exactly when the answer is complete: empty buffer, at least two repetitions asked for, a buffer below the minimum length, or a smallest period that divides the length |
| `RepetitionDetection.SingleRepetitionOverlooked` | src/.archived/app/repetition_detector.py:37-38 | with one repetition asked for, "aba" is overlooked |
| `RepetitionDetection.RootIsUnique` | src/.archived/app/repetition_detector.py:36-41 | the primitive root and exponent are unique and read off the smallest period |
| `RepetitionDetection.ChunkingDoesNotMatter` | src/.archived/app/repetition_detector.py:24 | over any feeds the buffer is the last buffer_size characters of everything fed |
| `RepetitionDetection.TrimmingIsStable` | src/.archived/app/repetition_detector.py:24 | trimming early never matters exactly for buffer sizes that are not negative |
| `Words.FineWilf` | src/.archived/app/repetition_detector.py:36-38 | two periods that fit side by side have their gcd as a period: why divisibility decides |
| `Words.SmallestPeriodDividesBase` | src/.archived/app/repetition_detector.py:36-38 | in a proper power the smallest period divides the base's length |
| `Words.IndivisibleIsPrimitive` | src/.archived/app/repetition_detector.py:37-38 | when the smallest period does not divide the length, the word is no power |
| `Subscribers.SubscriberRegistry.Subscribe` | src/app/pipeline/events.py:35-56 | an empty or duplicate id is refused and changes nothing; otherwise the subscription is last in its event |
| `Subscribers.SubscriberRegistry.Freeze` | src/app/pipeline/events.py:58-62 | every event's subscribers in order, or the first event, in subscription order, that has none |
| `Subscribers.ReadConstraints` | src/app/pipeline/events.py:70-84 | before and after become one dependency set each; a reference to a stranger is reported as such |
| `Subscribers.Order` | src/app/pipeline/events.py:65-99 | rounds of the ready, until all are settled or nobody is ready; it always ends |
| `Subscribers.FailsIffCyclic` | src/app/pipeline/events.py:88-93 | when all names are known, it fails, as cyclic, if and only if the relation has a cycle |
| `Subscribers.OrderMeaning` | src/app/pipeline/events.py:86-99 | a permutation sorted by longest dependency chain and registration that satisfies every constraint |
| `Subscribers.OrderIsDeterministic` | src/app/pipeline/events.py:66-69 | two runs over one bucket agree, in whatever order sets are read |
| `SubscriberOrder.OrderFailsIffCyclic` | src/app/pipeline/events.py:88-93 | the layered order is missing exactly for cyclic dependencies |
| `SubscriberOrder.StuckHasCycle` | src/app/pipeline/events.py:88-93 | a round in which nobody is ready yields a cycle |
| `SubscriberOrder.CycleBlocksPeel` | src/app/pipeline/events.py:89-98 | a cycle never becomes ready |
| `SubscriberOrder.OrderIsSorted` | src/app/pipeline/events.py:86-99 | a successful order is the sort by longest chain, then registration index |
| `SubscriberOrder.SortedRespectsDependencies` | src/app/pipeline/events.py:86-99 | such a sort runs nobody before what it depends on |
| `SubscriberOrder.SortIsUnique` | src/app/pipeline/events.py:66-69 | there is only one such sort |
| `ToolPairs.Conversation.RepairToolPairs` | src/app/pipeline/anthropic_request_hook.py:137-186 | the in-place pass and the drop compute the repaired conversation and the three counts |
| `ToolPairs.Conversation.Drop` | src/app/pipeline/anthropic_request_hook.py:189-198 | the named turns go, unless that would leave none |
| `ToolPairs.KeepBlocks` | src/app/pipeline/anthropic_request_hook.py:163-178 | a turn's orphan calls and answers are taken out and counted, everything else stays in order |
| `ToolPairs.EditedPredecessorSuffices` | src/app/pipeline/anthropic_request_hook.py:156-177 | reading an already edited predecessor and an unedited successor decides every block as the unedited conversation would |
| `ToolPairs.RepairIsConsistent` | src/app/pipeline/anthropic_request_hook.py:137-198 | every call is answered in the next turn and every answer called in the previous one, on the adjacency after the drop |
| `ToolPairs.RepairKeepsTheMost` | src/app/pipeline/anthropic_request_hook.py:137-186 | every consistent selection of blocks is among the kept ones |
| `ToolPairs.KeptIsConsistentSelection` | src/app/pipeline/anthropic_request_hook.py:137-186 | the kept blocks are a consistent selection, hence the greatest |
| `ToolPairs.ConsistentIsFixed` | src/app/pipeline/anthropic_request_hook.py:137-186 | a consistent conversation passes untouched and uncounted |
| `ToolPairs.SecondRunDoesNothing` | src/app/pipeline/anthropic_request_hook.py:137-198 | a second run returns (0, 0, 0) |
| `ToolPairs.CountsAddUp` | src/app/pipeline/anthropic_request_hook.py:168-176 | blocks before are blocks after plus the two counts |
| `ToolPairs.OthersSurviveInOrder` | src/app/pipeline/anthropic_request_hook.py:177-181 | blocks that are neither calls nor answers all survive in order |
| `ToolPairs.DroppedTurns` | src/app/pipeline/anthropic_request_hook.py:182-198 | as many turns go as were emptied, unless that is all; a non-empty list never becomes empty |
| `ToolPairs.ExactlyEmptiedTurnsGo` | src/app/pipeline/anthropic_request_hook.py:182-198 | the turns left are exactly those the pass has not emptied, or all if it has emptied all, in order; a turn that arrived empty stays |
| `ToolPairs.AllEmptiedLeavesEmptyTurns` | src/app/pipeline/anthropic_request_hook.py:189-195 | when every turn is emptied all of them stay, with empty contents |
| `ToolPairs.UnansweredCallsAreAllEmptied` | src/app/pipeline/anthropic_request_hook.py:137-198 | any conversation of assistant turns with one call each is such a one |
| `ToolPairs.OneUnansweredCall` | src/app/pipeline/anthropic_request_hook.py:189-195 | the shortest: one turn with one call is left as one empty turn |
| `HistoryArchiveStore.ReadZstdFrame` | src/app/history/archive.py:225-245 | reads four bytes, then chunks, and gives back what it read past the frame: it finds exactly what is next in the stream |
| `HistoryArchiveStore.IterRecords` | src/app/history/archive.py:133-140 | yields the records of a segment in order, until its end or its first fault |
| `HistoryArchiveStore.ValidatedSegmentSize` | src/app/history/archive.py:202-211 | the file's size if it reads without a fault, nothing otherwise |
| `HistoryArchiveStore.HistoryArchiveStore.RestoreCurrentSegment` | src/app/history/archive.py:164-183 | the highest listed segment with its size, in whatever order the directory is listed; it raises exactly if a listed segment does not read |
| `HistoryArchiveStore.HistoryArchiveStore.SegmentFor` | src/app/history/archive.py:142-162 | the remembered or restored segment if it is empty or has room, otherwise a new one |
| `HistoryArchiveStore.HistoryArchiveStore.Append` | src/app/history/archive.py:61-102 | a reference says where its frame lies; an append that raises has chosen the segment as any append does and leaves at most a piece of its frame there, uncounted |
| `HistoryArchiveStore.ArchiveDirectory.AppendBytes` | src/app/history/archive.py:90-91 | one unbuffered append puts exactly the accepted bytes at the end of the file |
| `HistoryArchive.KeptReadsBack` | src/app/history/archive.py:104-118 | a filed reference passes every check of read and yields its record |
| `HistoryArchiveRaises.ReadsBackExactly` | src/app/history/archive.py:61-118 | over any history of appends, raises and restarts, whatever files and numbers there are: a reference reads back its record ever after if and only if the bytes past the remembered size, followed by the frame, begin with the frame; otherwise reading it fails ever after with a digest mismatch |
| `HistoryArchiveRaises.RightSizeReadsBack` | src/app/history/archive.py:61-118 | in particular it reads back whenever nothing lay past the remembered size |
| `HistoryArchiveRaises.ReferencesReadBack` | src/app/history/archive.py:61-118 | while no append has raised and numbers have six digits, every returned reference reads back its record in all later states, across rollovers and restarts, whatever files were found |
| `HistoryArchiveRaises.ReferencesSurviveRaises` | src/app/history/archive.py:61-118 | with six-digit numbers, whatever raises, a reference reads back in all later states unless its segment had been torn before it was returned |
| `HistoryArchiveRaises.SilentRaisesTearNothing` | src/app/history/archive.py:86-94 | raises that write nothing tear no segment |
| `HistoryArchiveRaises.FiledStaysFiled` | src/app/history/archive.py:86-94 | no later append, restart or raise takes away what has been filed |
| `HistoryArchive.SegmentsStayOrderly` | src/app/history/archive.py:142-162 | every segment holds whole frames only and is within the limit or a single frame |
| `HistoryArchive.SegmentsListRecords` | src/app/history/archive.py:133-140 | a segment reads as its first records and then those appended to it, in order |
| `HistoryArchive.RestartFindsCurrent` | src/app/history/archive.py:164-199 | a restart resumes the true current segment if and only if its number is below 10^6 |
| `HistoryArchive.RestartForgetsLongNumbers` | src/app/history/archive.py:191-199 | past that number a restart resumes an older segment, and no later append opens a fresh one |
| `HistoryArchiveRaises.ShortWriteBreaksReferences` | src/app/history/archive.py:89-94 | that reading fails: a frame appended again after one byte of it was written gets a reference whose read raises, unless its bytes are all the same |
| `HistoryArchiveRaises.LongNumberBreaksReferences` | src/app/history/archive.py:164-199 | that it fails without a raise: after a restart, an append to a seven-digit segment that is there already |
| `SegmentNames.NamesReadBack` | src/app/history/archive.py:155-161 | a segment's file name is recognised, as its own number, exactly for numbers below 10^6 |
| `SegmentNames.NamesDiffer` | src/app/history/archive.py:155-161 | different segments have different names |
| `Cursor.CursorReadsBack` | src/app/history/writer.py:901-920 | a cursor decodes to its key exactly when neither part is empty and started_at holds no NUL |
| `Cursor.EncodedLetters` | src/app/history/writer.py:901-911 | stripping and restoring the padding of URL-safe base64 loses nothing |
| `Cursor.SextetsReadBack` | src/app/history/writer.py:901-911 | six-bit groups read back as the bytes they were made from |
| `Pagination.PageIsComplete` | src/app/history/writer.py:581-634 | a page holds the highest matching rows under its cursor, all of them unless it names a next page, whose cursor is its last row |
| `Pagination.PagesAreComplete` | src/app/history/writer.py:581-634 | the same for every page of a walk along next_cursor, on the table as it is by then |
| `Pagination.EveryQueryHasAnswer` | src/app/history/writer.py:581-634 | every finite table has an answer to every query |
| `Pagination.WalksGoOn` | src/app/history/writer.py:581-634 | so a walk can start, and go on wherever a page names a next one, on any table there is by then |
| `Pagination.PagesDescend` | src/app/history/writer.py:594-621 | later pages lie below earlier ones |
| `Pagination.ShownAtMostOnce` | src/app/history/writer.py:594-621 | a key is shown at most once in a whole walk, whatever is inserted or changed between the pages |
| `Pagination.NothingIsMissed` | src/app/history/writer.py:581-634 | a walk that has ended has shown every row that matched throughout |
| `Pagination.WalksEnd` | src/app/history/writer.py:625-634 | on an unchanging table a walk has at most one page more than there are rows |
| `Pagination.WalksShowExactlyTheMatches` | src/app/history/writer.py:581-634 | and has then shown exactly the matching rows |
| `HistoryIndex.Index.PersistEntry` | src/app/history/writer.py:513-568 | persisting replaces the row by one that is active, unpinned and not archived |
| `HistoryIndex.Index.BeginArchive` | src/app/history/writer.py:765-800 | an unpinned row that is not archived becomes archiving; any other is left alone and named |
| `HistoryIndex.Index.CompleteArchive` | src/app/history/writer.py:802-851 | a row still archiving whose reference reads back becomes archived, flag and state together; a missing row or an unreadable reference raises and changes nothing |
| `HistoryIndex.Index.MarkArchiveFailed` | src/app/history/writer.py:853-871 | only a row that is archiving is marked failed |
| `HistoryIndex.Index.SetPin` | src/app/history/writer.py:873-894 | only the pin changes, and only if it differs |
| `HistoryIndex.RunsKeepInvariant` | src/app/history/writer.py:340-428 | every interleaving of calls, persists, pins, worker and close, with calls and worker interrupted anywhere, keeps the row invariants |
| `HistoryIndex.FlagAgreesWithState` | src/app/history/writer.py:765-871 | archived = 1 exactly when the state is archived |
| `HistoryIndex.StuckExactly` | src/app/history/writer.py:340-428 | over every run: an archiving row is in nobody's hands if and only if it was so at start, or some step took its last hand off it, and nothing has revived it since; the steps are an interrupted call past its begin, a put after the worker's end, and the worker's death |
| `HistoryIndex.ArchivingIsInHand` | src/app/history/writer.py:340-354 | every other archiving row is with a call past its begin, with the worker, or in a queue that a worker reads |
| `HistoryIndex.UndisturbedIsInHand` | src/app/history/writer.py:340-354 | in particular with no call interrupted and the worker alive |
| `HistoryIndex.QueueStrandsExactly` | src/app/history/writer.py:340-428 | a row lies unserved in the queue if and only if it was put there after the worker's end, was queued when the worker died, or lay there when a call asking again was interrupted, and has not been revived since |
| `HistoryIndex.CleanExitLeavesOnlyStuck` | src/app/history/writer.py:368-382 | if no call is under way when the worker exits, exactly the rows stuck by then and not persisted again are archiving from then on |
| `HistoryIndex.NothingArchivedWithoutWorker` | src/app/history/writer.py:407-428 | once the worker is gone no row becomes archived |
| `HistoryIndex.LaterRequestsAreUnserved` | src/app/history/writer.py:340-354 | a request that finds room in the queue of a worker that is gone is answered as archiving and left unserved |
| `HistoryIndex.StuckStays` | src/app/history/writer.py:340-428 | a row in nobody's hands stays so until it is persisted or begun again |
| `HistoryIndex.RevivalFrees` | src/app/history/writer.py:340-354 | being persisted or begun again ends it |
| `HistoryIndex.IdleLeavesNoneArchiving` | src/app/history/writer.py:226-227 | with an idle queue and no call past its begin the archiving rows are exactly those left behind or lost |
| `HistoryIndex.ArchivedWasReadBack` | src/app/history/writer.py:802-851 | a row archived in this process got there by its own reference reading back |
| `HistoryIndex.PinnedExactly` | src/app/history/writer.py:765-894 | a row is pinned if and only if it was pinned after its last begin and the pin has not ended |
| `HistoryIndex.PinnedWhenArchived` | src/app/history/writer.py:802-851 | so a row that is pinned when it becomes archived was pinned after its last begin |
| `HistoryIndex.LatePinIsArchived` | src/app/history/writer.py:802-851 | that it happens: completing does not look at the pin |
| `HistoryReads.CompletionReadsExactly` | src/app/history/writer.py:802-851 | the completion of a persisted row finds its record if and only if the file held nothing past the remembered size when its frame was appended, or only what the frame repeats |
| `HistoryReads.PersistedRowsComplete` | src/app/history/writer.py:802-851 | if no append had raised by then, it never fails for its reference |
| `HistoryIndex.CancelledCallStrands` | src/app/history/writer.py:340-354 | that each cause happens: a call cancelled between its begin and its put, with the writer open and idle |
| `HistoryIndex.CloseCanStrand` | src/app/history/writer.py:340-382 | a call that began before close and puts after the worker's exit |
| `HistoryIndex.WorkerCanDie` | src/app/history/writer.py:407-428 | an error while a failure is recorded ends the worker although the writer is open |
| `HistoryRaces.BeginUndivided` | src/app/history/writer.py:765-800 | with nothing in between, begin's two statements are the whole method |
| `HistoryRaces.CompletionUndivided` | src/app/history/writer.py:802-851 | and so are completion's |
| `HistoryRaces.DisagreesExactly` | src/app/history/writer.py:765-851 | with the statements apart, flag and state of a row disagree if and only if a completion of it committed between the two of a begin, and it has been neither completed nor persisted since |
| `HistoryRaces.CrossingExactly` | src/app/history/writer.py:765-800 | a begin's update meets a flagged row exactly in that case |
| `HistoryRaces.MisreadExactly` | src/app/history/writer.py:802-851 | a row is archived on another reference than its own if and only if it was persisted with another one between the two statements of a completion, and has been neither completed nor persisted since |
| `HistoryRaces.OvertakenExactly` | src/app/history/writer.py:802-851 | a completion commits for a reference it has not read exactly in that case |
| `HistoryRaces.FlaggedHasRead` | src/app/history/writer.py:802-851 | every flagged row has had a reference read for it, unless it was flagged at start and not persisted since |
| `HistoryRaces.SplitBeginDisagrees` | src/app/history/writer.py:765-800 | that it happens: a second call for a row whose completion comes between its statements |
| `HistoryRaces.SplitCompletionMisreads` | src/app/history/writer.py:802-851 | that it happens: a row persisted while its completion reads |
| `FooterGroups.ByStartSorts` | src/app/observability/footer.py:115 | sorting by start keeps every request, puts earlier starts first, and leaves equal starts in the order given |
| `FooterGroups.GroupRequests` | src/app/observability/footer.py:109-122 | one group for every model and effort, holding exactly its requests in order; groups in the order of their first requests |
| `FooterGroups.GroupingIsUnique` | src/app/observability/footer.py:109-122 | the requests alone determine the groups |
| `FooterGroups.LongestRunningFirst` | src/app/observability/footer.py:109-122 | oldest request first, both within and across groups |
| `FooterGroups.EveryRequestHasOneItem` | src/app/observability/footer.py:109-122 | no two groups share a key, and there are as many items as requests |
| `FooterGroups.FooterOf` | src/app/observability/footer.py:125-187 | the footer of the requests in flight shows their groups, or the client count alone, or nothing |
| `Footer.BuildFooter` | src/app/observability/footer.py:125-187 | the line for the groups in flight, or the client count alone, or nothing |
| `Footer.PassOne` | src/app/observability/footer.py:150-166 | stops at the first group from the second on that would not fit, and returns the exact width used |
| `Footer.PassTwo` | src/app/observability/footer.py:168-182 | ends, maximal, through a run in which every growth is the fair one |
| `Footer.Sweep` | src/app/observability/footer.py:172-182 | one round over the shown groups |
| `Footer.NarrowTotalIsLineWidth` | src/app/observability/footer.py:150-165 | the tail reserved in pass one is exact: what is compared is the width of the very line that shows those groups and +K more |
| `Footer.TotalIsLineWidth` | src/app/observability/footer.py:168-182 | the running total is the assembled line's width, all along |
| `Footer.ShownInFull` | src/app/observability/footer.py:150-201 | whenever two groups are shown, or the first fits with its tail, the line is at most columns - 1 and nothing is cut |
| `Footer.FinalLineFits` | src/app/observability/footer.py:190-201 | whatever comes in, the final line fits with a column to spare |
| `Footer.NoMoreItemsFit` | src/app/observability/footer.py:172-182 | no hidden next item of a shown group would fit |
| `Footer.NoMoreGroupsFit` | src/app/observability/footer.py:152-165 | no further group would have fitted, even with every group at its narrowest |
| `Footer.FooterLineIsUnique` | src/app/observability/footer.py:150-187 | the widths alone determine the line |
| `FairGrowth.StoppedStays` | src/app/observability/footer.py:172-182 | a group that is exhausted or blocked stays as it is for the rest of the run |
| `FairGrowth.LeftBehindMeansStopped` | src/app/observability/footer.py:168-182 | a group more than one item behind another had stopped |
| `FairGrowth.HistoryIsUnique` | src/app/observability/footer.py:172-182 | the round-robin run is determined by where it starts |
| `ShutdownLadder.Ladder.Receive` | src/app/lifecycle/shutdown.py:60-73 | one signal moves the stage as the ladder says, and a change wakes the waiter |
| `ShutdownLadder.Ladder.ReceiveAll` | src/app/lifecycle/standalone.py:126-142 | the same for signals that arrive one after another |
| `ShutdownLadder.StageCountsEscalations` | src/app/lifecycle/shutdown.py:60-73 | the stage is min(3, escalations + 1 if SIGUSR2 came before the first of them) |
| `ShutdownLadder.RestartNeverDeepens` | src/app/lifecycle/shutdown.py:66-70 | SIGUSR2 alone never deepens a descent |
| `ShutdownLadder.StageOnlyRises` | src/app/lifecycle/shutdown.py:60-73 | the stage never goes back |
| `ShutdownLadder.NoWakeUpIsLost` | src/app/lifecycle/standalone.py:272-286 | however a waiter and the signals interleave, two turns end its wait exactly if the stage has moved |
| `ShutdownLadder.StageRisesEachRound` | src/app/lifecycle/standalone.py:288-304 | as long as no wait ends the descent, the stage is up by at least one each round |
| `ShutdownLadder.Descend` | src/app/lifecycle/standalone.py:196-219 | at most three rounds and two waits; it ends drained at an unchanged stage, or at the last rung without waiting, having cancelled what ran; that waits end as it asks is Serving.WaitsEndAsDescendAssumes |
| `Admission.UvicornListenerAdapter.RegisterDormantLocked` | src/app/lifecycle/adapter.py:307-341 | registers once, from new or stopped, with the gate closed; a failure breaks the adapter |
| `Admission.UvicornListenerAdapter.ArmLocked` | src/app/lifecycle/adapter.py:343-358 | arms a dormant adapter with the gate open; a failure refuses and closes |
| `Admission.UvicornListenerAdapter.Stop` | src/app/lifecycle/adapter.py:133-139 | stops with the gate closed and no refusal, unless shutdown or failure came first |
| `Admission.UvicornListenerAdapter.BeginShutdownLifespan` | src/app/lifecycle/adapter.py:246-254 | shutting down refuses before it waits |
| `Admission.UvicornListenerAdapter.Resume` | src/app/lifecycle/adapter.py:141-151 | from stopped it registers and arms again; an accepting adapter stays as it is, any other raises |
| `Admission.UvicornListenerAdapter.EndShutdownLifespan` | src/app/lifecycle/adapter.py:256-265 | after the drain the lifespan ends once, and the adapter is closed, or broken if the lifespan asked to exit |
| `Admission.UvicornListenerAdapter.StopAdmittingLocked` | src/app/lifecycle/adapter.py:219-244 | refuses with its reason behind an open gate, and leaves the state alone |
| `Admission.UvicornListenerAdapter.StartupLifespan` | src/app/lifecycle/adapter.py:106-123 | starts once and not after close; a lifespan that asks to exit breaks the adapter |
| `Admission.UvicornListenerAdapter.Gate` | src/app/lifecycle/adapter.py:387-408 | a request waits at a closed gate, is refused with the reason in force and counted, or goes through |
| `Admission.FirstByteRoutingAdapter.StopAccepting` | src/app/lifecycle/listener.py:232-251 | the router's stop pauses the adapter behind it, again if repeated |
| `Admission.FirstByteRoutingAdapter.ArmLocked` | src/app/lifecycle/listener.py:210-230 | the router's arm opens the adapter's gate |
| `Admission.RefusalImpliesOpenGate` | src/app/lifecycle/adapter.py:273-287 | in both compositions and after any operations, a refusal stands behind an open gate |
| `Serving.DrainWaitsRefuse` | src/app/lifecycle/standalone.py:160-219 | every wait for the requests to drain, reached from serve, happens with the barrier refusing |
| `Serving.EveryFalseMeansHigher` | src/app/lifecycle/standalone.py:288-304 | a wait that returns without ending the descent returns at a strictly higher stage; one that ends it had drained at an unchanged stage |
| `Serving.AtMostThreeRounds` | src/app/lifecycle/standalone.py:196-219 | no run reads the ladder more than three times, or waits after more than two of them |
| `Serving.WaitCanEndExactly` | src/app/lifecycle/standalone.py:272-304 | once both its tasks have had their turns, a drain wait can end exactly if a poll found the requests drained or the stage has moved |
| `Serving.WaitsEndAsDescendAssumes` | src/app/lifecycle/standalone.py:288-304 | a wait that has returned saw the requests drained or a stage that the signals of that wait have moved |
| `Serving.StageFollowsSignals` | src/app/lifecycle/standalone.py:126-142 | in every run the stage is what the signals alone have led to |
| `Serving.NobodyStaysParked` | src/app/lifecycle/adapter.py:397-416 | so a request at the gate can move then, and is answered |
| `Serving.NothingStartsWhileDraining` | src/app/lifecycle/adapter.py:219-244 | and nothing new starts running during such a wait |
| `Serving.RegatedIsReleased` | src/app/lifecycle/listener.py:285-288 | the router's stop inside its own shutdown lifts the refusal for a moment, which the next step restores |
| `ConfigPinning.ExpandsTo` | src/app/config/provider.py:24-43 | a pattern expands to exactly the paths that fit it and are there |
| `ConfigTree.WriteReads` | src/app/config/provider.py:46-63 | what is written at a path is read there |
| `ConfigTree.WriteSpares` | src/app/config/provider.py:46-63 | writing a path leaves every unrelated path as it was |
| `ConfigTree.PinAllSettles` | src/app/config/provider.py:153-164 | pinning one path after another restores each, lists exactly the changed ones, and leaves unrelated paths alone |
| `ConfigPinning.TargetsAreTopDown` | src/app/config/provider.py:139-164 | no later pin lies above an earlier one |
| `ConfigReload.PatternPathsReadAsStartup` | src/app/config/provider.py:153-164 | every path a restart-only pattern stands for reads as at startup |
| `ConfigReload.ChangedProvidersReadAsStartup` | src/app/config/provider.py:80-118 | a provider that came, went or changed its type is as at startup, and with any of them the default provider |
| `ConfigReload.ScopedFieldsReadAsStartup` | src/app/config/provider.py:121-136 | a provider's type-scoped fields are as at startup |
| `ConfigReload.RestartRequiredIsExact` | src/app/config/provider.py:139-170 | each listed path has its startup value instead of the candidate's, and what is unrelated to all of them is the candidate's |
| `ConfigProvider.PinProviderGraph` | src/app/config/provider.py:80-105 | the edits of the provider graph, one after another |
| `ConfigProvider.PinInPlace` | src/app/config/provider.py:139-170 | all edits in order give the pinned configuration and list |
| `ConfigProvider.PinningIsIdempotent` | src/app/config/provider.py:139-170 | pinning what has been pinned discards and changes nothing |
| `ConfigProvider.CurrentIsLastGood` | src/app/config/provider.py:193-201 | after any reloads the configuration in effect depends only on the start and the last source that could be built and was accepted once pinned |
| `ConfigProvider.Provider.Reload` | src/app/config/provider.py:165-201 | swaps in the pinned source and reports what was held back; a source that cannot be built, or whose pinned values the schema refuses, changes nothing |
| `InertToken.Render` | src/app/observability/request_log.py:307-331 | the whole escaped value if it fits, otherwise its longest front that fits with the marker behind it, or nothing below a limit of one |
| `InertToken.TokenIsInert` | src/app/observability/request_log.py:307-331 | at most limit long, no structural character, one marker at the end exactly when the value did not fit |
| `InertToken.EscapeReadsBack` | src/app/observability/request_log.py:314-321 | escaped text reads back as exactly its value |
| `InertToken.TokensDiffer` | src/app/observability/request_log.py:307-331 | different values have different tokens unless one was cut |
| `InertToken.CutTokenIsFront` | src/app/observability/request_log.py:322-328 | a cut token is an escaped proper front of its value, the longest there is room for |
| `ResponseDisplay.Coalesce` | src/app/observability/request_log.py:402-430 | neighbours of one kind become one segment |
| `ResponseDisplay.CoalescedIsApart` | src/app/observability/request_log.py:402-430 | no two neighbours go together any more |
| `ResponseDisplay.CoalescingIsIdempotent` | src/app/observability/request_log.py:402-430 | coalescing twice is coalescing once |
| `ResponseDisplay.CoalescingKeepsTotals` | src/app/observability/request_log.py:402-430 | the same calls in the same order, and as many reasoning items of each kind |

## Left out

- Compression, CBOR, SHA-256, SQLite, sockets, asyncio and uvicorn internals: represented by what the modelled code relies on.
- HTTP providers, authentication, TLS, command line, service installer, metrics, colours and the other log formatters: input and output around the modelled logic.
- The helpers that build the events of a capture (`request_body`, `upstream_request_start` and the like) and their once-per-attempt guards: they decide which events are emitted, and every sequence of events is covered.
- Header normalisation and hashing of session and agent names in the capture store: a capture simply has a path.
- `CaptureRuns.RunsKeep`: the sentinel that close queues is a flag of the store, because nothing can be queued behind it.
- `CaptureGuarantees.ReservationsAreExact`: the total at start is the size of all files in the directory; files that another process adds later are not modelled.
- `read_transport`: single-branch checks on a record that `read` has returned.
- `HistoryIndex.StuckExactly`: the sentinel that close puts into the queue takes up no place in it.
- `HistoryRaces.DisagreesExactly`: any call and any completion may come at any time, whatever the queue holds; every run of the writer is among these.
- `HistoryIndex.ArchivedWasReadBack`: rows that an earlier process left archiving or archived are kept apart until they are persisted or archived again.
- `Pagination.PagesAreComplete`: the query is given by its answer (order, limit, filters, cursor); conversion of columns is not modelled.
- `FooterGroups.FooterOf`: the wording of one request's age and bytes (`_item`, `format_duration`, `format_bytes`) is a parameter.
- `Serving.DrainWaitsRefuse`: start-up and its teardown are not steps of the run; their operations are covered by `Admission.RefusalImpliesOpenGate`. That cancelled handlers end is not claimed.
- `Admission.FirstByteRoutingAdapter.StopAccepting`: sockets still waiting for their first byte are not modelled; stopping closes them and cancels their tasks.
- `ShutdownLadder.Descend`: the cleanup budget after the drain and its error report are not modelled.
- `ConfigProvider.PinInPlace`: the nested dictionaries are values, so the sharing of subtrees between startup and candidate is not modelled; pinned values are never edited afterwards.
- `ConfigProvider.Provider.Reload`: the schema's validation is a parameter, and is taken to leave the values it accepts as they are.
- `ConfigReload.RestartRequiredIsExact`: paths are reported as paths; their dotted spelling is ambiguous for keys that contain a dot.
- `InertToken.TokenIsInert`: which characters are letters or digits is a parameter.
