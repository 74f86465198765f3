# plantstream: a verified model of its store-and-forward path

plantstream moves readings from industrial devices to a broker. An edge node
polls devices, rates every tag and publishes messages; a bridge forwards
messages to a sink and keeps them in a durable queue while the sink is down.
This project models that path in Dafny and proves what it promises.

| modules | model |
|---|---|
| Bytes, Sequences, Messages, Buffers | bytes, big-endian numbers, sequences, messages, buffers filled by offset |
| Records | the on-disk record and its readers |
| Directories | the queue directory, one step per file operation, with a trace of every state a crash can leave |
| Recovery, CrashSafety, Reopening | what Open makes of any directory; every crash inside every operation |
| DiskQueues | the queue object: Push, Peek, Ack, Close, eviction and recovery over that directory |
| QueueModel, QueueRuns, QueueShapes | the queue as a value and its whole lives: any calls, cut off by crashes, any number of times; how its segments fill |
| QueueLives, QueueFailures | the queue object lives as QueueRuns says; two runs with an unexpected end, and the queue object living them |
| QueueContract | the contract through which the bridge sees the queue |
| InboxModel, InboxLaws, InboxTheorems, Inboxes | the ring of per-topic FIFOs: functions, each operation written out, theorems over runs, the object |
| BridgeProtocol, BridgeTheorems, BridgeNominal, BridgeRecovery | the event loop as a transition system, interleaved with arrivals, tokens, timer and cancellation |
| BridgeRestarts, BridgeOnDisk | the protocol with crashes of the bridge process, and its queue calls on the disk queue |
| Bridges, BridgeRefinement | the loops of replay and drain over the real queue and inbox, and that they are steps of the protocol |
| ReadPlan | the read planner |
| ModbusFrame, ModbusServer, ModbusClient, ModbusWire, ModbusRegs, ModbusSource | framing, server, client, the wire byte by byte, register codec, the polling cycle end to end |
| QualityRules | the quality evaluator |
| EdgeNode, EdgeMessages, EdgeTheorems | the node that feeds the evaluators and publishes verdicts, and what each message says |

Objects the program updates in place are classes; their methods are proved
equal to functions, and the theorems are about those functions. `Rep`, `Valid`,
`Weak` and `Invariant` are invariants; `Contents` is the sequence of unread
record bodies, the abstract value of the queue. A crash is the end of the
process: completed file operations stay, an append may have written any prefix.
Constants and frame layouts follow sections 6.3, 6.4 and 7 of the MODBUS
Application Protocol Specification V1.1b3 and section 3.1.3 of the MODBUS
Messaging on TCP/IP Implementation Guide V1.0b.

## Where the code does not keep its promise

Each of these is stated for the code as it is, with a failing input and the
condition under which it fails.

- **An inbox push can evict from its own topic** (internal/bridge/inbox.go:34-47).
  It reads the FIFO, evicts, and writes the old FIFO back: the evicted message
  returns, the total is one short, and a topic whose FIFO had one message leaves
  the ring with messages in it and is never served again
  (`SelfEvictionExample`, `StrandedForever`). The invariant survives a push if
  and only if this does not happen (`PushValid`, and `RunValid` over runs); a
  push that reads again keeps it always (`RereadingValid`). Order per topic and
  conservation of counts hold even so.
- **A crash right after a roll can lose a record** (internal/adapters/diskqueue/diskqueue.go:249-287).
  A lone segment may exceed the budget when one record is larger than it. If
  the process stops after the next Push created its new segment, the next Open
  evicts the old one before anything replaced it. Push is atomic under crashes
  if and only if the queue was within its budget or had nothing unread
  (`StoreCrashes`, `Push`, `LossExactly`); `LoneRecordRun` loses one, as
  does the real queue in `LoneRecordLost`. Over whole runs nothing is lost that
  way if no record is larger than MaxBytes (`RunTally`, `NothingLost`).
- **A segment started too early** (internal/adapters/diskqueue/diskqueue.go:249-287).
  If the process stops in a Push right after its roll, the new segment is empty,
  and the next record goes there even if it had fitted in the one before
  (`LateRun`). Without such a late push segments are packed (`RunPacked`).
- **An orphaned head file** (internal/adapters/diskqueue/diskqueue.go:103-159).
  When the head file names a segment that is gone and none is left, Open starts
  over in segment 1 without rewriting it, and the Open after that skips what was
  pushed meanwhile, unless the cursor is harmless (`FreshSegmentSurvives`,
  `Recover`: if and only if). The queue itself never leaves such a directory.
- **An exhausted head segment** (internal/adapters/diskqueue/diskqueue.go:397-412).
  After the crash of `ResetCrash` and a later roll, Peek reports an error though
  records are waiting; Ack then drops that segment and nothing unread
  (`ExhaustedRun`, `ExhaustedHead`, and `AckMeaning` for every such state). In a
  run in which no Ack is stopped Peek never fails (`PeekNeverFails`).
- **A body above 16 MiB** (internal/adapters/diskqueue/diskqueue.go:249-276) is
  accepted by Push, but by no reader: once it is at the head, Ack gives it up
  with the rest of its segment, and Open cuts the file before it
  (`UnacceptableHead`, `ReadBack`).
- **Re-encoding a decoded record** gives other bytes when its retain byte is
  neither 0 nor 1 (`BodyOfDecode`).
- **Backoff**: the documented wait is right if and only if RetryMin <= RetryMax
  (`DocumentedBackoff`); the defaults let a large RetryMin exceed RetryMax.
- **Starvation** (internal/bridge/inbox.go:9-12 excludes it) is possible when
  topics keep entering the ring: for every n there is a run with n pops in which
  a topic with a message is never served (`Starvation`). A topic is served
  within distance + insertions + 1 pops (`ServedInTime`).
- **Float32 registers with a signalling NaN** do not survive decoding and
  encoding; all others do (`EncodeDecoded`).
- **STALE during an outage** (docs/architecture.md:103-104 promises one BAD). A
  tag that is BAD for a value that is not finite is skipped when its source
  fails, so a later check still replaces BAD by STALE (`StaleInOutage`, if and
  only if).

## Model

| member | source | states |
|---|---|---|
| Bytes.DigitAt | internal/modbus/frame.go:101-114 | Big-endian position by position: byte i has the weight of the bytes behind it, so the first is the most significant. |
| Records.Encode | internal/adapters/diskqueue/diskqueue.go:456-477 | The buffer filled by offset is exactly one record: length, checksum, then the body, whose layout is the independent function Body. |
| Records.BodyLayout | internal/adapters/diskqueue/diskqueue.go:456-477 | The body byte by byte: two bytes of topic length, the topic, eight bytes of time with the most significant first and negative times in two's complement, a byte 0 or 1, the payload. |
| Records.RecordLayout | internal/adapters/diskqueue/diskqueue.go:456-477 | The record byte by byte: the length of the body, its checksum, the body. |
| Records.ReadRecordMeaning | internal/adapters/diskqueue/diskqueue.go:162-198 | What a reader does with any bytes: which error for a short header, a length outside 1 byte to 16 MiB, a short body or another checksum; else the body. |
| Records.DecodeBody | internal/adapters/diskqueue/diskqueue.go:456-496 | decode inverts encode for every message whose topic fits 65535 bytes, whatever its payload; a longer topic comes back cut, nothing else changes. |
| Records.BodyOfDecode | internal/adapters/diskqueue/diskqueue.go:456-496 | The other direction: encode after decode gives the same bytes if and only if the retain byte is 0 or 1. |
| Records.ReadBack | internal/adapters/diskqueue/diskqueue.go:162-198 | A record followed by anything is read back whole; with a body outside 1 byte to 16 MiB it is reported corrupt instead. |
| Records.ReadRecordIsRecord | internal/adapters/diskqueue/diskqueue.go:318-356 | Whatever a reader accepts is a record: re-encoding the accepted body gives the bytes consumed. |
| Records.TornRecordUnreadable | internal/adapters/diskqueue/diskqueue.go:162-198 | No proper prefix of a record is ever accepted by a reader. |
| Records.BodiesOfEncoded | internal/adapters/diskqueue/diskqueue.go:162-198 | Reading a log followed by anything unreadable returns exactly the log. |
| Records.BodiesArePrefix | internal/adapters/diskqueue/diskqueue.go:162-198 | For any file contents: the accepted bodies re-encode to a prefix of it, and nothing readable follows that prefix. |
| Records.ScanStopsAtTornTail | internal/adapters/diskqueue/diskqueue.go:162-198 | Encoded records followed by any proper prefix of another record scan to exactly those records. |
| Records.ScanRecords | internal/adapters/diskqueue/diskqueue.go:162-198 | The scan loop stops behind the last readable record and counts the records, from any start offset, also one past the end. |
| Directories.Directory.WriteHead | internal/adapters/diskqueue/diskqueue.go:217-227 | The head file changes in one step, by rename; the trace gets the one state a crash can see. |
| Directories.Directory.Append | internal/adapters/diskqueue/diskqueue.go:249-276 | An append may be cut after any number of bytes; all these states join the trace of possible crashes. |
| Directories.AppendStatesAre | internal/adapters/diskqueue/diskqueue.go:257-264 | The crash states of an append: the file with the first k bytes of the data behind what it held, for every k, and nothing else different. |
| Directories.FileOperations | internal/adapters/diskqueue/diskqueue.go:190-246 | Creating, truncating, removing and writing the head, file by file; a truncation beyond the end fills with zeros. |
| Recovery.ScanIdempotent | internal/adapters/diskqueue/diskqueue.go:162-198 | A second scan of what a scan left finds the same records and leaves the file alone. |
| Recovery.LayoutDescribes | internal/adapters/diskqueue/diskqueue.go:103-159 | A directory laid out as the running queue has it, with or without a torn tail, rescans to the same segments, sizes, counts and unread bodies. |
| Recovery.LayoutRecovered | internal/adapters/diskqueue/diskqueue.go:103-159 | Open on such a directory finds the unread sequence the running queue had, less whole oldest segments above the budget. |
| Recovery.RollLayout | internal/adapters/diskqueue/diskqueue.go:242-246 | A roll keeps memory and files in step, and its segment id is fresh. |
| Recovery.AppendLayout | internal/adapters/diskqueue/diskqueue.go:257-275 | An append keeps them in step with one more record in the last segment. |
| Recovery.TornLayout | internal/adapters/diskqueue/diskqueue.go:257-275 | An interrupted append leaves the same bookkeeping with a torn tail. |
| Recovery.DropLayout | internal/adapters/diskqueue/diskqueue.go:291-309 | Removing the oldest file keeps the rest in step, with the cursor at the start of the next segment; the old head file still links to it. |
| Recovery.AdvanceLayout | internal/adapters/diskqueue/diskqueue.go:359-394 | The cursor moves over exactly one record, stays on a record boundary, and reaches the end of the segment exactly when no unread record is left in it. |
| Recovery.ResetLayout | internal/adapters/diskqueue/diskqueue.go:397-412 | Truncating the only segment leaves one empty segment in step. |
| Recovery.ResetCrash | internal/adapters/diskqueue/diskqueue.go:397-412 | A crash between truncation and head write: the next Open extends the file to the stale offset and comes back with an exhausted segment and no record. |
| CrashSafety.FreshSegmentSurvives | internal/adapters/diskqueue/diskqueue.go:103-159 | With a head file naming a segment that is gone, a record pushed into the fresh segment 1 survives the next Open if and only if HeadUsable: no such file, or a cursor 1 0. |
| CrashSafety.DropSafe | internal/adapters/diskqueue/diskqueue.go:291-309 | Both crash states of an eviction reopen to what is left when the whole excess is gone. |
| CrashSafety.TornSafe | internal/adapters/diskqueue/diskqueue.go:257-275 | Every torn append reopens to the records there were before. |
| CrashSafety.RollSafe | internal/adapters/diskqueue/diskqueue.go:242-287 | A crash right after a roll keeps everything, except that a lone segment above the budget is evicted by the next Open. |
| CrashSafety.StoreCrashes | internal/adapters/diskqueue/diskqueue.go:249-276 | Storing a record is atomic under crashes if and only if the queue was within its budget or had nothing unread. |
| CrashSafety.EvictionKeepsNewest | internal/adapters/diskqueue/diskqueue.go:280-309 | Evicting oldest segments cuts a prefix of the unread sequence and never the record just pushed. |
| CrashSafety.LeftOverBudget | internal/adapters/diskqueue/diskqueue.go:249-287 | After an eviction more than MaxBytes is left only if it is the one record just pushed, alone in its segment and larger than MaxBytes. |
| CrashSafety.ValidSafe | internal/adapters/diskqueue/diskqueue.go:103-159 | A queue at rest within its budget reopens to exactly its unread sequence. |
| CrashSafety.DiscardSafe | internal/adapters/diskqueue/diskqueue.go:291-309 | Giving up the head segment, by removal or truncation, is atomic under crashes. |
| CrashSafety.AdvanceSafe | internal/adapters/diskqueue/diskqueue.go:359-394 | After the head write of an Ack the next Open finds all but the acknowledged record. |
| Reopening.RemoveDead | internal/adapters/diskqueue/diskqueue.go:127-132 | Removing a consumed segment changes nothing a later scan would find. |
| Reopening.TruncateLive | internal/adapters/diskqueue/diskqueue.go:162-198 | Neither does cutting a live one to its readable part. |
| Reopening.SweptLayout | internal/adapters/diskqueue/diskqueue.go:103-159 | When the recovery loop is done, memory and files are in step for any directory whatever that has a live segment. |
| Reopening.FreshLayout | internal/adapters/diskqueue/diskqueue.go:151-154 | With no live segment the queue starts over in segment 1, linked to the head file if and only if that is usable. |
| Reopening.AlikeAtomic | internal/adapters/diskqueue/diskqueue.go:103-159 | A recovery interrupted at any file operation recovers the same records the next time. |
| DiskQueues.Normalised | internal/adapters/diskqueue/diskqueue.go:83-92 | A positive MaxBytes is kept, else it is 64 MiB; a SegmentBytes from 1 to half of that is kept, without one it is 4 MiB if that is at most half, and in all other cases half (or one byte). |
| DiskQueues.Queue.WriteHead | internal/adapters/diskqueue/diskqueue.go:217-227 | Afterwards the head file names the first segment and the cursor. |
| DiskQueues.Queue.DropHead | internal/adapters/diskqueue/diskqueue.go:291-309 | The oldest segment goes with its unread records, which are counted as dropped when asked to. |
| DiskQueues.Queue.EnforceBound | internal/adapters/diskqueue/diskqueue.go:280-287 | Exactly the first Excess segments go, the newest never; dropped counts their unread records; an eviction leaves more than MaxBytes - SegmentBytes when segments are small. |
| DiskQueues.Queue.Roll | internal/adapters/diskqueue/diskqueue.go:242-246 | A new empty last segment with the next id; nothing else changes. |
| DiskQueues.Queue.ReadAtHead | internal/adapters/diskqueue/diskqueue.go:318-356 | What a read at the cursor finds: the first unread record, or nothing exactly when the head segment is exhausted. |
| DiskQueues.Queue.Peek | internal/adapters/diskqueue/diskqueue.go:312-356 | The oldest unread message, with nothing changed; an error only for an exhausted head segment followed by others or an unreadable record. |
| DiskQueues.Queue.ResetOnly | internal/adapters/diskqueue/diskqueue.go:397-412 | The only segment is emptied in place; the two crash states are the truncated one and the final one. |
| DiskQueues.Queue.DiscardHead | internal/adapters/diskqueue/diskqueue.go:365-391 | The first segment goes as a whole; dropped counts its unread records, none for an exhausted one. |
| DiskQueues.Queue.Close | internal/adapters/diskqueue/diskqueue.go:436-454 | Flushes the cursor; afterwards a reopen loses nothing. |
| DiskQueues.Queue.ScanSegment | internal/adapters/diskqueue/diskqueue.go:162-198 | The file is cut to, or extended with zeros to, what the scan accepted; size and count are those of the scan. |
| DiskQueues.Queue.Sweep | internal/adapters/diskqueue/diskqueue.go:103-150 | For any directory: dead segments are removed, live ones scanned in id order, and no step changes what a later recovery finds. |
| DiskQueues.Queue.Push | internal/adapters/diskqueue/diskqueue.go:249-276 | The record goes behind those in the last segment, which grows by its length; or, if and only if that segment is not empty and would exceed SegmentBytes, into a new segment with the next id; then the oldest segments go while over budget. So the unread sequence becomes a suffix of the old one followed by the new record, nothing is evicted unless the budget would be exceeded, and the byte bound holds with its one exception. Every crash inside reopens to the queue before, after the roll, or after the push, and to the old or new records if and only if the queue was within budget or empty. |
| DiskQueues.Queue.Ack | internal/adapters/diskqueue/diskqueue.go:359-394 | Removes exactly the message Peek returns; on an unreadable head gives up the rest of that segment and counts it; shrinks a measure, so repeated calls get past any damage; the file states it passes through are listed, and each reopens to the queue before, after, or, for a reset, with an exhausted segment and no record. |
| DiskQueues.Queue.Recover | internal/adapters/diskqueue/diskqueue.go:103-159 | Open on any directory whatever: exactly the segments and bodies the scan finds, less the oldest ones above the budget, or a fresh segment 1; dropped counts exactly the records of the segments that went; safe against crashes if and only if the head file is usable; interrupted recovery leads to the same queue. |
| QueueModel.ReopenedUnread | internal/adapters/diskqueue/diskqueue.go:103-159 | The records of the reopened queue are those the scan recovers. |
| QueueModel.ScanMeaning | internal/adapters/diskqueue/diskqueue.go:162-198 | A scan finds all records from its start up to the first place where none can be read, and the size up to there; a start beyond the end is taken for the size. |
| QueueModel.OpenMeaning | internal/adapters/diskqueue/diskqueue.go:103-159 | Open on any directory whatever: its segments are the files from the one the head file names on, in the order of their ids, each scanned from its start, the one named from the offset there; without a head file all of them. |
| QueueModel.OpenConserves | internal/adapters/diskqueue/diskqueue.go:280-309 | What Open evicts followed by what it keeps are the records it found. |
| QueueModel.PushPlacement | internal/adapters/diskqueue/diskqueue.go:249-276 | What a push leaves is the old segments with the record put in the last one, or in a new one with the next id if and only if the last is not empty and would exceed SegmentBytes, less whole segments at the front. |
| QueueModel.PushMeaning | internal/adapters/diskqueue/diskqueue.go:249-287 | What the exact new segments mean: the record goes to the back, only a prefix is evicted and only above the budget, what remains is within the budget unless it is that one record alone; with small records an eviction leaves more than MaxBytes - SegmentBytes. |
| QueueModel.ExcessNeeded | internal/adapters/diskqueue/diskqueue.go:280-287 | No segment is evicted needlessly: with any of those that go still there the budget is exceeded. |
| QueueModel.UnacceptableHead | internal/adapters/diskqueue/diskqueue.go:318-378 | A body above 16 MiB at the head: Peek reports it corrupt and Ack gives up the rest of its segment with it. |
| QueueModel.TidyPush | internal/adapters/diskqueue/diskqueue.go:249-276 | A push keeps every segment within SegmentBytes, or filled by a single unread record. |
| QueueModel.TidyExhausted | internal/adapters/diskqueue/diskqueue.go:397-412 | So does the crash that leaves an exhausted segment: it is never larger than SegmentBytes. |
| QueueModel.StoreReopens | internal/adapters/diskqueue/diskqueue.go:249-276 | The k-th file state a store passes through reopens to the k-th listed queue: rolled until the last byte of the record is written, the whole push from then on. |
| QueueModel.DiscardReopens | internal/adapters/diskqueue/diskqueue.go:291-309 | The states of giving up the head segment reopen one by one to the queue without it or, for a reset, first with it exhausted and empty. |
| QueueRuns.PushPlaces | internal/adapters/diskqueue/diskqueue.go:249-287 | Where a push stops decides what is found: nothing done, then only the roll, and from the last byte of the record on the whole push. |
| QueueRuns.OutcomeLoosely | internal/adapters/diskqueue/diskqueue.go:249-412 | Put loosely: a stopped call had its effect or none, except that a push may have rolled and an Ack may have left an exhausted segment. |
| QueueRuns.RunUnique | internal/adapters/diskqueue/diskqueue.go:83-454 | The calls and the places where they stop determine every state of the run. |
| QueueRuns.StepSound | internal/adapters/diskqueue/diskqueue.go:83-412 | Every call, completed or cut off, keeps segments tidy, the budget respected as far as eviction can, and all records readable. |
| QueueRuns.AckMeaning | internal/adapters/diskqueue/diskqueue.go:359-394 | On records the queue wrote itself: Ack takes exactly the one Peek shows; if Peek shows an error, the head segment is exhausted and it alone goes. |
| QueueRuns.RunBound | internal/adapters/diskqueue/diskqueue.go:83-287 | After every push, Ack and Open of every run, crashes included: Bytes <= MaxBytes, unless one segment is left that holds a single record larger than MaxBytes, and then of exactly that size; records of at most SegmentBytes keep all segments that small. |
| QueueRuns.StepTally | internal/adapters/diskqueue/diskqueue.go:83-412 | One call of a run: records leave the front only, in an Ack by one, in a push by eviction only if the budget would be exceeded, or by the one losing crash, only above the budget with records unread. |
| QueueRuns.RunStored | internal/adapters/diskqueue/diskqueue.go:249-276 | What a run stored, in order: the record of every completed push, and of some interrupted ones. |
| QueueRuns.RunAck | internal/adapters/diskqueue/diskqueue.go:359-394 | In every run a completed Ack takes exactly the oldest record stored and not gone yet, which is the one Peek shows, or nothing when Peek shows none. |
| QueueRuns.RunTally | internal/adapters/diskqueue/diskqueue.go:83-412 | In every run the unread records are exactly those stored, in order, less those acknowledged, those evicted by pushes above the budget, and those lost by a crash in a push to a queue above its budget. |
| QueueRuns.NothingLost | internal/adapters/diskqueue/diskqueue.go:83-412 | If no record is larger than MaxBytes, no crash in any run loses one. |
| QueueRuns.LossExactly | internal/adapters/diskqueue/diskqueue.go:249-276 | A crash in a push can leave neither the old nor the new records if and only if the queue was above its budget with records unread. |
| QueueShapes.StepPacked | internal/adapters/diskqueue/diskqueue.go:249-276 | Every call, stopped or not, keeps the packing law (the first record of each segment did not fit in the one before), except a late push. |
| QueueShapes.LateBreaks | internal/adapters/diskqueue/diskqueue.go:249-276 | A late push, into an empty segment another push started and left, of a record that had fitted before it, breaks the law unless something is evicted. |
| QueueShapes.RunPacked | internal/adapters/diskqueue/diskqueue.go:249-276 | In every run without a late push, wherever the process stops, a segment was started only because its first record did not fit in the one before. |
| QueueShapes.CompletedPacked | internal/adapters/diskqueue/diskqueue.go:249-276 | No push is late in a run in which none was stopped, so the law holds there. |
| QueueShapes.LateRun | internal/adapters/diskqueue/diskqueue.go:249-276 | A run with a late push, in which the law fails. |
| QueueShapes.PeekNeverFails | internal/adapters/diskqueue/diskqueue.go:312-412 | In every run in which no Ack is stopped, whatever else is, Peek never reports an error: it shows the oldest unread record whenever there is one. |
| QueueLives.Open | internal/adapters/diskqueue/diskqueue.go:83-101 | Open on any directory gives exactly the reopened queue; dropped counts the records of the segments over the budget and, together with those left, all that were readable; with a usable head file it works, and a crash inside Open leads to the same queue. |
| QueueLives.Crash | internal/adapters/diskqueue/diskqueue.go:83-159 | A stop in the chosen one of the states an operation passes through, and the Opens after it, themselves stopped as often as one likes: a working queue, which is what that state reopens to and the outcome listed for that place. |
| QueueLives.DoPush | internal/adapters/diskqueue/diskqueue.go:249-276 | A push on the real queue, completed or stopped in the chosen one of the file states it passed through, from the one before it on; the queue is then what that state reopens to, and what QueueRuns.Outcome says. |
| QueueLives.DoAck | internal/adapters/diskqueue/diskqueue.go:359-394 | The same for Ack. |
| QueueLives.Live | internal/adapters/diskqueue/diskqueue.go:83-454 | Every sequence of pushes, Acks and restarts on the real queue, each completed or stopped at the place it names and the Opens after it stopped too, is state by state the one run QueueRuns gives these calls, and the queue at the end is its last state. |
| QueueFailures.LoneRecordRun | internal/adapters/diskqueue/diskqueue.go:249-287 | A record larger than MaxBytes is held, alone; the process stops in the next push right after its roll, nothing is unread any more and one record counts as lost. |
| QueueFailures.LoneRecordLost | internal/adapters/diskqueue/diskqueue.go:249-287 | The real queue living these two calls goes through that run: it held the record and ends up empty. |
| QueueFailures.ExhaustedRun | internal/adapters/diskqueue/diskqueue.go:312-412 | Two pushes, an Ack, an Ack stopped between truncation and head write, and a push that rolls: the last state reports an error at its head although the third record is unread, and the next Ack drops nothing unread. |
| QueueFailures.ExhaustedHead | internal/adapters/diskqueue/diskqueue.go:312-412 | The real queue living these five calls goes through that run, and its Peek returns the error while the record waits. |
| Inboxes.Inbox.PushLocked | internal/bridge/inbox.go:32-53 | The fields change exactly as the model of the shipped push says. |
| Inboxes.Inbox.Push | internal/bridge/inbox.go:32-56 | Keeps the weak invariant always and the full one if and only if the eviction does not hit the pushed topic; one message more is buffered or counted; a token is posted. |
| Inboxes.Inbox.FindLongest | internal/bridge/inbox.go:59-69 | The first longest non-empty FIFO in ring order. |
| Inboxes.Inbox.EvictLongest | internal/bridge/inbox.go:59-77 | The oldest message of that FIFO goes; a topic left empty leaves the ring. |
| Inboxes.Inbox.RemoveFromRing | internal/bridge/inbox.go:79-94 | The topic leaves the ring and the cursor stays on what it pointed at, or wraps. |
| Inboxes.Inbox.Pop | internal/bridge/inbox.go:97-122 | The oldest message of the topic at the cursor, or nothing; never an index outside the ring or an empty FIFO. |
| InboxTheorems.PushFifos | internal/bridge/inbox.go:32-56 | Per topic: the message is appended, at most one is cut from the front of one FIFO, and the newest of the pushed topic always stays. |
| InboxTheorems.PushCounts | internal/bridge/inbox.go:32-56 | total + dropped grows by one with every push. |
| InboxTheorems.PushRing | internal/bridge/inbox.go:32-56 | Which topics are in the ring after a push; no repeats, cursor in range. |
| InboxLaws.PushExact | internal/bridge/inbox.go:32-94 | A push written out in its three cases: a full FIFO loses its own oldest message; below the global budget nothing is lost; else the first longest FIFO in ring order loses its oldest. A new topic goes to the end of the ring, an emptied one leaves it, and the cursor stays on its topic or goes to the next. |
| InboxTheorems.PopEffect | internal/bridge/inbox.go:97-122 | pop moves one message out of one FIFO and leaves all other FIFOs alone. |
| InboxLaws.PopTurns | internal/bridge/inbox.go:97-122 | pop takes the oldest message of the topic whose turn it is; that topic goes to the end of the line if it has more and leaves it otherwise; the order of the others stays. |
| InboxTheorems.PopValid | internal/bridge/inbox.go:97-122 | pop keeps the full invariant. |
| InboxTheorems.ValidCanPop | internal/bridge/inbox.go:97-122 | Under the full invariant pop finds a message if and only if some FIFO has one. |
| InboxTheorems.PushValid | internal/bridge/inbox.go:32-56 | The shipped push keeps the full invariant (ring = exactly the topics with messages, total = their sum, within the limits) if and only if it does not evict from its own topic. |
| InboxTheorems.RereadingValid | internal/bridge/inbox.go:34-47 | A push that reads the FIFO again after the eviction keeps it always, and is the shipped push otherwise. |
| InboxTheorems.SelfEvictionExample | internal/bridge/inbox.go:34-47 | Three pushes to two topics after which one topic has two messages, no place in the ring and a total one short. |
| InboxTheorems.StrandedForever | internal/bridge/inbox.go:32-122 | A topic stranded that way stays so in every continuation, and none of its messages is ever popped. |
| InboxTheorems.RunValid | internal/bridge/inbox.go:32-122 | Over a whole run the full invariant holds throughout if and only if no push in it evicts from its own topic. |
| InboxTheorems.TopicOrder | internal/bridge/inbox.go:32-122 | Over every run of the shipped code, self-evictions included: per topic, popped messages followed by the FIFO are a subsequence of what arrived. |
| InboxTheorems.PopDistance | internal/bridge/inbox.go:97-122 | A pop of another topic brings a pending topic exactly one step closer to the cursor. |
| InboxTheorems.EvictDistance | internal/bridge/inbox.go:59-94 | An eviction never puts it further away. |
| InboxTheorems.PushDistance | internal/bridge/inbox.go:32-56 | A push puts it at most one further away, and only by a topic entering the ring. |
| InboxTheorems.WaitingBound | internal/bridge/inbox.go:35-122 | Over a run, pops of others plus remaining distance are at most the initial distance plus ring insertions. |
| InboxTheorems.ServedInTime | internal/bridge/inbox.go:35-122 | So a pending topic is served, or evicted, within distance + insertions + 1 pops. |
| InboxTheorems.Starvation | internal/bridge/inbox.go:35-122 | For every n a run with n pops in which a topic with a message is not served once: other topics keep entering the ring. |
| InboxTheorems.BehindReached | internal/bridge/inbox.go:32-122 | The inbox those runs start from is reached from an empty one. |
| BridgeTheorems.ReplayFirstStep | internal/bridge/bridge.go:138-203 | Every step keeps live traffic and replay apart. |
| BridgeTheorems.CountStep | internal/bridge/bridge.go:125-131 | Every step keeps arrivals = forwarded + coalesced + dropped + queued + buffered + in hand. |
| BridgeTheorems.AwakeStep | internal/bridge/bridge.go:163-200 | Every step, arrivals included, keeps a token present or coming whenever a message could be popped. |
| BridgeTheorems.RetryStep | internal/bridge/bridge.go:147-181 | Every step keeps the timer running with the documented wait while the sink is down. |
| BridgeTheorems.OrderStep | internal/bridge/bridge.go:138-275 | Every step keeps the order per topic. |
| BridgeTheorems.RunInvariant | internal/bridge/bridge.go:138-203 | All of these hold in every state of every execution. |
| BridgeTheorems.RunOrder | internal/bridge/bridge.go:138-275 | Over every execution, with outages, batches, evictions, coalescing and shutdown: per topic, the sink log, the queue and the inbox in this order are a subsequence of the arrivals. |
| BridgeTheorems.RunWakeUp | internal/bridge/bridge.go:163-200 | Waiting in select with messages to pop, a token is there or a pusher is about to post one; the retry timer is armed or has fired, and with the sink down it was set to the wait of the current probe. |
| BridgeTheorems.RunDrained | internal/bridge/bridge.go:298-308 | When the shutdown drain ends, nothing can be popped and every arrival was delivered, queued, or counted as coalesced or dropped; with a valid inbox it is empty. |
| BridgeTheorems.DocumentedBackoff | internal/bridge/bridge.go:277-295 | In every execution the timer waits min(2^k * RetryMin, RetryMax) for the k-th probe in a row if and only if RetryMin <= RetryMax. |
| BridgeNominal.StraightThrough | internal/bridge/bridge.go:185-200 | As long as the sink accepts, from an empty queue, the queue is never used: nothing is stored or evicted, and every arrival was delivered, coalesced, or is in hand or in the inbox. |
| BridgeNominal.NeverBlocked | internal/bridge/bridge.go:138-203 | In every run the forwarder can always go on, except where it waits in the select for a token, the timer or cancellation; with the sink up and the queue empty it can do nothing with a message but send it. |
| BridgeNominal.DownMeansQueued | internal/bridge/bridge.go:168-181 | While the sink is down and nothing is cancelled, an expired timer always finds a queued message to probe with. |
| BridgeNominal.RelaxedWhileUp | internal/bridge/bridge.go:147-182 | While the sink is up the timer runs with RetryMax. |
| BridgeRestarts.DeliveredInOrder | internal/bridge/bridge.go:138-308 | Over every history of the bridge, its process crashing anywhere any number of times: the sink log is a log without repetitions in which at most one message per crash is sent a second time, right after the first; per topic that log, the queue and what is in memory are, in this order, a subsequence of the arrivals; without a crash nothing is repeated. |
| BridgeRestarts.NothingSkipped | internal/bridge/bridge.go:138-308 | No arrival is lost in silence: every one was delivered, counted as coalesced or evicted, in memory at a crash, or is still queued or in memory; at most one per crash counts twice, sent and then evicted. |
| BridgeRestarts.MoveKept | internal/bridge/bridge.go:138-308 | Every action and every crash keeps these invariants. |
| BridgeOnDisk.PushLeaves | internal/adapters/diskqueue/diskqueue.go:249-287 | A push stopped anywhere leaves unread the records before it, with its own behind them or not, less some from the front: with its own only if the budget would be exceeded, without it only if the queue was above its budget with records unread. |
| BridgeOnDisk.SpillOnDisk | internal/adapters/diskqueue/diskqueue.go:249-287 | A push stopped anywhere on a queue that holds what the protocol has queued leaves what a spill, or a crash without it, leaves queued; a crash without it takes records only if the queue was above its budget with records unread. |
| BridgeOnDisk.AckOnDisk | internal/adapters/diskqueue/diskqueue.go:359-394 | An Ack after a delivery, stopped anywhere, leaves what the acknowledgement, or a crash without it, leaves queued. |
| BridgeOnDisk.SkipOnDisk | internal/adapters/diskqueue/diskqueue.go:359-394 | An Ack on a head that cannot be read, stopped anywhere, takes nothing unread. |
| BridgeRecovery.NothingTaken | internal/bridge/bridge.go:147-175 | While catching up, from the probe on, the inbox is not touched. |
| BridgeRecovery.RecoveryTakes | internal/bridge/bridge.go:147-295 | Once the sink accepts, starting from the probe or the top of the loop: at every point at most ceil(backlog / ReplayBatch) batches, the probe included, and a bounded number of forwarder steps; back in select the whole backlog is delivered in order in exactly that many batches. |
| BridgeRecovery.NeverStuck | internal/bridge/bridge.go:147-275 | Until then the forwarder always has a step of its own that the sink accepts, once the timer has fired. |
| Bridges.Bridge.Send | internal/bridge/bridge.go:223-234 | An accepted message joins the sink log and is counted. |
| Bridges.Bridge.Spill | internal/bridge/bridge.go:212-221 | The message goes to the back of the queue; what it evicts is counted. |
| Bridges.Bridge.ReplayOne | internal/bridge/bridge.go:243-271 | One iteration over the real queue, decided by what Peek shows and the answer of the sink: deliver and acknowledge the head, skip an unreadable one, or stop without any change. |
| Bridges.PopAllTakesAll | internal/bridge/inbox.go:97-122 | From a valid inbox, popping until empty takes every FIFO whole and in order. |
| Bridges.Bridge.Replay | internal/bridge/bridge.go:238-275 | Over the real queue: what was delivered is, in order, what left the front of the queue, apart from unreadable records, which are counted; a refused message is not removed; a full success empties the queue or uses all iterations; sinkUp is set exactly unless the sink refused or the context was cancelled; how each iteration ended is reported. |
| Bridges.SoundReplay | internal/bridge/bridge.go:238-275 | A replay over records the queue wrote itself gives none up: it delivers the first ones, in order, and leaves the rest. |
| Bridges.Bridge.Drain | internal/bridge/bridge.go:298-308 | Over the real inbox and queue: everything pop gives is appended to the queue in order; what each append evicts is reported and counted. |
| BridgeRefinement.ReplayRefines | internal/bridge/bridge.go:238-275 | Whatever the real replay did, the protocol can do from the start of its replay, step by step: same deliveries, same losses, same queue left. |
| BridgeRefinement.DrainRefines | internal/bridge/bridge.go:298-308 | Whatever the real drain did, the protocol can do up to its end: same inbox and queue left, nothing more delivered, as many evicted. |
| ReadPlan.NeverTogether | internal/collectors/modbus.go:51-63 | Two tags that differ in function code, span more than 125 registers, or are parted by a hole that no tag bridges cannot share a request. |
| ReadPlan.ApartNeedsMany | internal/collectors/modbus.go:34-36 | Pairwise such tags need one request each, in any way of reading all tags. |
| ReadPlan.ExtendedExact | internal/collectors/modbus.go:52-58 | Joining a tag keeps a block exactly the span of its tags, within 125 registers and without a hole above maxGap. |
| ReadPlan.SplitApart | internal/collectors/modbus.go:56-62 | A tag the current block cannot take cannot share a request with the first tag of any block so far. |
| ReadPlan.GroupedMinimal | internal/collectors/modbus.go:34-65 | A grouping whose first tags are pairwise incompatible is a minimum. |
| ReadPlan.Plan | internal/collectors/modbus.go:34-65 | Every tag is in exactly one block, each block is a permitted request for exactly the span of its tags, and no other way of reading all tags takes fewer requests, for every order the unstable sort may leave. |
| ModbusSource.ReadSlices | internal/collectors/modbus.go:175-182 | Every tag of a block is decoded from its own registers, in order; all slices are in bounds. |
| ModbusSource.Source.constructor | internal/collectors/modbus.go:106-141 | The source polls a minimal plan of its tags. |
| ModbusSource.Source.Read | internal/collectors/modbus.go:150-185 | One cycle: dial if needed, one request to the unit per block reached, in order and with consecutive transaction ids, slices and decodes; a transport error drops the connection, a protocol exception keeps it. |
| ModbusSource.SliceIsAlone | internal/collectors/modbus.go:175-181 | A tag cut out of a block has the value a request for that tag alone would give. |
| ModbusSource.BlockReadable | internal/modbus/server.go:172-180 | A block can be read from a register bank if and only if each of its tags can be read alone. |
| ModbusSource.FetchServed | internal/collectors/modbus.go:163-174 | One request over the wire, stale frames first, gives the reply of the bank and leaves nothing unread. |
| ModbusSource.PollMeaning | internal/collectors/modbus.go:150-185 | From any block on: the cycle succeeds if and only if every remaining tag can be read alone, and then yields those values. |
| ModbusSource.PlannedCycle | internal/collectors/modbus.go:150-185 | A whole planned cycle through framing, server, slicing and decoding: one reading per tag, equal to reading the tag alone; it fails if and only if some tag alone cannot be read. |
| ModbusSource.TagOfTable | internal/collectors/modbus.go:175-181 | A tag read alone has the value of its one or two registers in its table, holding for function code 3 and input for 4, if the table has them. |
| ModbusSource.CycleReadings | internal/collectors/modbus.go:150-185 | A whole cycle by the registers: it ends well if and only if every tag lies in its table, and then reading k has the name of tag k, the value of its registers and the time of the cycle. |
| ModbusSource.PollLeavesNothing | internal/collectors/modbus.go:150-185 | A cycle leaves no bytes on the connection, so the next one starts clean. |
| ModbusWire.FrameBytes | internal/modbus/frame.go:101-114 | The first eight bytes of a frame as numbers: transaction id, two zeros, length, unit, function code. |
| ModbusWire.TakeADUMeaning | internal/modbus/frame.go:117-141 | Reading a frame from any bytes: which error at which length or value, and what is left unread. |
| ModbusWire.RequestBytes | internal/modbus/frame.go:144-158 | Function codes other than 3 and 4, quantities outside 1 to 125 and ranges beyond 65536 are refused; else address and quantity, high byte first. |
| ModbusWire.RequestOnWire | internal/modbus/frame.go:101-158 | The twelve bytes of a read request. |
| ModbusWire.ParseRequestBytes | internal/modbus/frame.go:161-174 | Reading a request from any data: four bytes, high byte first, and the same limits. |
| ModbusWire.ResponseBytes | internal/modbus/frame.go:177-184 | The byte count, then the high and the low byte of each register. |
| ModbusWire.ParseResponseBytes | internal/modbus/frame.go:188-211 | Reading any response: the exception with its code (4 if there is none), the three errors, or the registers from their bytes. |
| ModbusWire.WireRead | internal/modbus/server.go:69-180 | The answer of a register bank to a read request, byte by byte: the registers of the holding table for function code 3 and of the input table for 4, exception 3 for a forbidden quantity or range, exception 2 for registers the table does not have. |
| ModbusWire.WireRefused | internal/modbus/server.go:69-129 | Any other function code is answered with exception 1 and a read request of another length with exception 3; bit 7 of the function code marks both. |
| ModbusWire.WireException | internal/modbus/server.go:102-129 | A bank that refuses passes its code on; one that fails or returns another number of registers gives exception 4. |
| ModbusFrame.MarshalBinary | internal/modbus/frame.go:101-114 | The buffer is the frame, or an error exactly when the PDU exceeds 253 bytes. |
| ModbusFrame.ReadADU | internal/modbus/frame.go:117-141 | Consumes exactly what TakeADU says of the unread bytes, in all error cases too. |
| ModbusFrame.TakeFrame | internal/modbus/frame.go:101-141 | A frame is read back whatever follows it, and nothing more is consumed. |
| ModbusFrame.TakenIsFrame | internal/modbus/frame.go:101-141 | Every accepted frame re-marshals to exactly the bytes consumed. |
| ModbusFrame.TakeAllFrames | internal/modbus/frame.go:101-141 | Concatenated frames are read back in order with nothing left. |
| ModbusFrame.TakeAllIsStream | internal/modbus/frame.go:101-141 | Any stream is the frames read from it, re-marshalled, followed by what was left. |
| ModbusFrame.ParseRequestBuilt | internal/modbus/frame.go:144-174 | A request that was accepted for building parses to its address and quantity. |
| ModbusFrame.BuildResponse | internal/modbus/frame.go:177-184 | The loop builds the byte count and the registers, most significant byte first. |
| ModbusFrame.ReadRegisters | internal/modbus/frame.go:188-211 | The loop reads back the registers of the payload. |
| ModbusFrame.ParseResponseBuilt | internal/modbus/frame.go:177-211 | Response and parse are inverse for 1 to 125 registers. |
| ModbusServer.AnswerFits | internal/modbus/server.go:102-129 | Every answer, for any bank and request, fits a frame. |
| ModbusServer.Handle | internal/modbus/server.go:69-100 | One answer frame is written per request frame read, until the input ends or breaks. |
| ModbusServer.AnswersInOrder | internal/modbus/server.go:69-129 | The output for any sequence of requests parses to one answer each, in order, with the ids of the requests. |
| ModbusServer.MemoryBank.constructor | internal/modbus/server.go:140-142 | Two separate tables of zeros. |
| ModbusServer.MemoryBank.SetHolding | internal/modbus/server.go:159-163 | Writes all registers at the address or none; the input table is untouched. |
| ModbusServer.MemoryBank.SetInput | internal/modbus/server.go:166-170 | Writes all registers at the address or none; the holding table is untouched. |
| ModbusServer.WriteTable | internal/modbus/server.go:182-189 | In place, all or nothing, and only in the addressed range. |
| ModbusClient.SkipsStale | internal/modbus/client.go:112-125 | Any number of frames with other transaction ids is skipped. |
| ModbusClient.AnswerParses | internal/modbus/server.go:102-129 | The parsed answer to a built request is the reply of the bank, errors included. |
| ModbusClient.ReadsWhatWasWritten | internal/modbus/server.go:145-189 | A range written into a table reads back exactly, through request, dispatch and response. |
| ModbusClient.Exchange | internal/modbus/client.go:75-126 | A full transaction after stale frames gives exactly the reply of the bank and leaves later bytes unread. |
| ModbusClient.Client.Transact | internal/modbus/client.go:88-126 | The id advances by one with wrap-around, one frame is written, and the first frame with that id is returned. |
| ModbusClient.Client.ReadRegisters | internal/modbus/client.go:75-85 | A refused request is never sent; otherwise the response of the transaction is parsed. |
| ModbusRegs.CanonicalInverse | internal/modbus/regs.go:77-120 | canonical and fromCanonical are inverse for every byte order and width. |
| ModbusRegs.DecodeMeaning | internal/modbus/regs.go:67-146 | The value by arithmetic on the registers, for every type and order: the first register is the high one in ABCD and BADC, the second in CDAB and DCBA, each with its bytes exchanged in BADC and DCBA; signed types in two's complement, float32 by its bit pattern; an error for any other number of registers. |
| ModbusRegs.EncodeMeaning | internal/modbus/regs.go:149-184 | The registers of an encoded integer hold, in that sense, the value cut off toward zero and forced into the range of the type; zero for a NaN. |
| ModbusRegs.EncodeSingleMeaning | internal/modbus/regs.go:149-171 | The two registers of an encoded float32 hold its bit pattern. |
| ModbusRegs.ClampMeaning | internal/modbus/regs.go:173-184 | Clamping and then truncating is truncating toward zero and then forcing into the range. |
| ModbusRegs.DecodeEncoded | internal/modbus/regs.go:124-171 | Decode of Encode is the value truncated toward zero and clamped, for all four integer types and byte orders; NaN gives zero and the infinities the ends of the range. |
| ModbusRegs.EncodeDecoded | internal/modbus/regs.go:124-171 | Encode of Decode gives the registers back, for all byte orders: always for the four integer types, and for float32 if and only if they do not hold a signalling NaN. |
| QualityRules.Evaluator.constructor | internal/domain/quality/quality.go:65-70 | A fresh evaluator with at least one required flatline sample, five by default. |
| QualityRules.Evaluator.Observe | internal/domain/quality/quality.go:78-111 | The fields become AfterObserve of the fields before; the verdict is the current one. |
| QualityRules.Evaluator.Comm | internal/domain/quality/quality.go:114-122 | BAD until the next sample. |
| QualityRules.Evaluator.Check | internal/domain/quality/quality.go:128-144 | Reports a change exactly when the tag becomes stale now. |
| QualityRules.History | internal/domain/quality/quality.go:78-94 | After any calls: unchanged is the length of the longest suffix of finite samples whose neighbours differ by at most Epsilon, lastChange the time of its first sample, last the latest of them. |
| QualityRules.ObserveVerdict | internal/domain/quality/quality.go:78-111 | Every verdict of Observe is the declarative rule over the whole history: not finite, then range, then flatline, then good. |
| QualityRules.CurrentVerdict | internal/domain/quality/quality.go:78-144 | The verdict in force after any calls: that of the last sample, replaced by STALE whatever it was once a check finds it too old, or BAD after Comm, which no check replaces. |
| QualityRules.CheckTransition | internal/domain/quality/quality.go:124-144 | Check reports a transition if and only if it is the first to find the last report, a sample, too old, and a finite sample was ever seen. |
| QualityRules.NothingReported | internal/domain/quality/quality.go:128-131 | Checks alone change nothing. |
| EdgeNode.NewEvaluators | internal/edge/node.go:89-97 | One separate fresh evaluator per topic. |
| EdgeNode.Node.constructor | internal/edge/node.go:55-107 | All tags good, all sequence numbers zero. |
| EdgeNode.Node.OnReadings | internal/edge/node.go:217-258 | Every reading of a known tag is scaled, evaluated, numbered and handed over in order; an unmarshallable one uses up its number. |
| EdgeNode.Node.OnError | internal/edge/node.go:260-294 | Every tag of the source that is not BAD is flagged and handed over, the others are left alone. |
| EdgeNode.Node.CheckStale | internal/edge/node.go:296-325 | Exactly the tags that become stale now are handed over, source by source. |
| EdgeMessages.ReadingsPublished | internal/edge/node.go:217-258 | What OnReadings hands over: one message for each reading that names a tag of the source, in order and whatever its verdict, with the topic of that tag, factor * raw + offset, the time of the reading or else now, and the verdict the rules give that sample after the history of the tag; numbered on from the number of the source modulo 256. Those that cannot be marshalled are missing and use up their numbers. |
| EdgeMessages.FailurePublished | internal/edge/node.go:260-294 | What OnError hands over, in the same sense: one BAD message for each tag of the source that is not BAD, with its latest finite value, or none. |
| EdgeMessages.StalePublished | internal/edge/node.go:296-325 | What a check hands over for a source: one STALE message for each tag that becomes stale, with its latest finite value. |
| EdgeMessages.RunFollowed | internal/edge/node.go:217-325 | The histories these laws speak of are, after any run of the node, those of NodeHistory. |
| EdgeTheorems.TransitionsOnly | internal/edge/node.go:260-325 | Between two samples of a tag, under any interleaving of failures, checks and readings of other tags: nothing, one STALE, one BAD, or STALE then BAD; after a reported failure nothing, after STALE at most one BAD. |
| EdgeTheorems.ErrorEffect | internal/edge/node.go:262-294 | A failure makes each tag of the source that was not BAD so, with exactly one message when it can be marshalled, and touches no other tag. |
| EdgeTheorems.TickEffect | internal/edge/node.go:297-325 | A check makes exactly the tags stale that have become so, with exactly one message each. |
| EdgeTheorems.NodeHistory | internal/edge/node.go:217-325 | After any run of the node, each evaluator is where its own history of samples, failures and checks puts a fresh one. |
| EdgeTheorems.RunMarked | internal/domain/quality/quality.go:113-122 | After any history a reported failure shows as BAD, so the transition theorem applies to every reachable state. |
| EdgeTheorems.StaleInOutage | internal/edge/node.go:275-277 | After any history, a tag becomes stale in spite of a failure of its source if and only if its last report was a value that is not finite, and old enough: the failure is then not passed on. |
| EdgeTheorems.StaleInOutageExample | internal/edge/node.go:275-277 | Such a history. |

## Left out

- Failing file operations (short writes, a full disk, failed renames or removals), fsync and power loss: on those paths the program does not restore its state; Sync is therefore not modelled.
- The strength of CRC-32: the checksum is an arbitrary function of the body.
- File handles: the open writer and reader are the file they refer to; use of a queue after Close, except that Push is refused, is not modelled.
- Wrap-around of 64-bit segment ids, sizes and counters.
- DiskQueues.Queue.Push: assumes an encoded body below 2^32 bytes, because the length field has 32 bits; bodies between 16 MiB and that are modelled, and rejected by the readers.
- DiskQueues.Queue.Recover: covers Open after its directory was created and listed; the errors of MkdirAll and ReadDir are not modelled.
- QueueLives.Live: starts from an empty directory, with bodies of at most 16 MiB.
- Bridges.Bridge.Spill: a Push that fails for an I/O error is not modelled, only one refused after Close.
- Bridges.Bridge.Drain: assumes that the buffered messages fit a record and that no push comes after the last pop; such pushes stay in memory in the program too.
- BridgeRestarts.DeliveredInOrder: a crash falls between two protocol actions; a stop inside a queue call is one before or after its action (BridgeOnDisk). Messages in memory at a crash are lost, as in the program, and the record of a message in hand may be stored or not.
- BridgeOnDisk.SpillOnDisk: for topics of at most 65535 bytes, which a record can hold.
- BridgeTheorems.CountStep: counts an unreadable record that Ack gives up as dropped, as the queue does, and not as delivered.
- Bridge configuration defaults, subscription, gauges and logging; real timers (integer waits, expiry at any time) and goroutine scheduling (interleaved steps).
- The body of Run as one loop: its steps are a transition system, because every one of them may interleave with callbacks; send, spill, replay and drain are methods as well.
- ReadPlan.Plan: assumes maxGap >= 0, which loading a plant guarantees (internal/domain/asset/load.go:70-71), and tags of 1 to 125 registers.
- ReadPlan.Plan: takes the order sort.Slice leaves as an input, any one that is sorted by function code and start.
- ModbusSource.PlannedCycle: the bank does not change during a cycle and the server answers every request; other exchanges are covered by ModbusSource.Source.Read alone.
- Deadlines, dialling and context cancellation in the Modbus client, and concurrent server connections.
- ModbusServer.Handle: a failing Write is not modelled; a bank other than MemoryBank is an arbitrary function.
- ModbusRegs.EncodeDecoded: a widened float32 is the 32-bit pattern that narrowing gives, with the quiet bit set for a signalling NaN as the usual processors do; rounding an arbitrary float64 to float32 is not modelled, and finite float64 values are reals.
- BridgeRefinement.ReplayRefines: for records that decode; a replay stopped by cancellation is followed up to the cancellation.
- BridgeRefinement.DrainRefines: for topics of at most 65535 bytes, which a record can hold.
- QualityRules.ObserveVerdict: samples, ranges and Epsilon are reals or not finite; rounding, a NaN Epsilon and the reason strings are not modelled.
- EdgeNode.Node.OnReadings: the cast to the declared type, the contextual fields and JSON are not modelled; whether a payload can be marshalled is an arbitrary predicate, and scaling a finite value stays finite.
- EdgeTheorems.TransitionsOnly: is about the order in which messages are handed over under the lock; publishing happens after it, and its failures, like those of two callbacks publishing at once, are not modelled.
- BIRTH and DEATH messages, which reset and use sequence numbers, the last-value cache, source health and metrics.
- The HTTP API, the MQTT and Kafka adapters, YAML loading and validation, the simulator, the in-memory queue and sink, deployment files: wide but shallow.
