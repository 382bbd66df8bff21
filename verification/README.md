# Verified model of the event loop, task queues, JSON and Modbus code

This project models five parts of the repository in Dafny and proves what they are for. Every algorithm that
the C code runs in place is a method over arrays, linked nodes or class fields, proved against a specification
function or a reference model; the theorems are about these functions and models.

* **Wake-up of a loop by other threads.** `Wakeup.dfy` is a state machine of any number of sending threads and one
  loop thread. One step is one read or write of a shared variable (`sent`, `async_pending`, `sig_pending`,
  `pipe_write_wanted`, `pipe_write_skipped`, the wake-up pipe, the mutex, the message list). The theorems hold in
  every state of every interleaving. `WakeupProgress.dfy` bounds how long a message waits while other threads keep
  sending, and `WakeupRest.dfy` proves that the loop comes to rest. `IntrusiveList.dfy` has the circular lists of
  `inc/list.h` as linked heap nodes and the task queue that is built on them.
* **The scheduler core of libev.** `EvHeap.dfy` (4-ary heap with back-indices and cached deadlines), `EvPending.dfy`
  (pending stacks), `EvTimers.dfy` (timers and their expiry), `EvPeriodic.dfy` (periodics), `EvIo.dfy` (lazy
  reconciliation of descriptors) and `EvPoll.dfy` (the table of the poll backend). Times are exact reals.
* **JSON.** `Json.dfy` defines texts and the parser as functions; `JsonParse.dfy`, `JsonPrint.dfy`, `JsonBuffer.dfy` and
  `JsonMinify.dfy` are the parser, the two printers and the stripper of white space as they run; `JsonRoundTrip.dfy` and
  `JsonMinify.dfy` prove that they agree, for 32-bit integers and strings free of NUL. `JsonGrammar.dfy` and `JsonLiterals.dfy`
  say what the parser accepts, and as what, independently of it; `JsonComments.dfy` does so for the stripper, and
  `JsonLayout.dfy` has examples of printed text. Standards: RFC 8259 and RFC 3629.
* **Modbus.** `Modbus.dfy` states requests, responses and a reference device; `ModbusMaster.dfy` and `ModbusSlave.dfy` are
  the encoders and handlers over their buffers; `ModbusEndToEnd.dfy` composes them. `Mbap.dfy` and `Crc.dfy` are the frame
  reader and the CRC; `ModbusTcp.dfy` and `ModbusRtu.dfy` put everything together into whole conversations. `ModbusBits.dfy`
  has the bit field helpers, `ModbusReceived.dfy` says what the slave takes and when a response depends on the bytes
  received only, and `ModbusExamples.dfy` has the examples of the standard. Standards: MODBUS Application Protocol V1.1b3, MODBUS Messaging on TCP/IP V1.0b and MODBUS over Serial Line V1.02.
* **Bucket hash.** `BHash.dfy`, over the same linked lists.

`dafny verify dfyconfig.toml` checks everything, with the default limits of Dafny 4.11. The proof obligations are kept below
1.2 million resource units on the default solver seed and on seeds 1 to 6, so that

    dafny verify --resource-limit 2000000 --verification-time-limit 0 --warn-contradictory-assumptions *.dfy

succeeds as well, also with `--boogie /randomSeed:N`.

## Where the code and what one expects of it differ

Each of these is proved, with the exact condition under which the code does what one expects.

* The TCP master compares `tid - 1` as an `int`, so the answer to request number 65535 is always dropped
  (`ModbusTcp.AnswerLostIff`, with `LostAnswerExample`).
* A holding register read takes the low byte of the count only; the master refuses the answer
  (`ModbusEndToEnd.CountTruncated`, with `CountTruncatedExample` for a count of 257). The counts the slave takes are not
  quite those of the standard: it refuses 2000 coils or discrete inputs, 125 input registers and 121 to 123 registers to
  write.
* A combined write and read whose read is refused has written all the same, so an exception does not always mean that
  nothing changed (`ModbusEndToEnd.ExceptionChangesNothingIff`, `HalfDoneCounterexample`). One that is too short is sent back
  as a success (`ShortRequestEchoed`).
* The writes of several cells take the amount of data from the request, not from the number of bytes received. A request
  that is too short is completed by what the buffer held before, and this is exactly when device or response depend on
  more than the bytes received (`ModbusReceived.OnlyReceivedIff`). What the master sends is never too short.
* A serial frame of 256 bytes, which the standard allows, is never collected whole (`ModbusRtu.CollectsIff`, with
  `LongFrameCounterexample`).
* `xMBUtilSetBits` does not cut the value to the field: bits outside stay as they were exactly if the bits that are too
  many are already there (`ModbusBits.OthersKeptIff`, with `SpillExample`).
* A comment between marks whose text begins with a slash ends right there (`JsonComments.CommentIff`, with
  `CommentCounterexample`).
* An error on a descriptor whose watchers are all for exceptional conditions is reported to nobody
  (`EvIo.IoLoop.NobodyFedIff`).
* The closing brace of an empty object is printed one tab too far to the left (`JsonLayout.EmptyObjectLayout`).
* A periodic with an interval below `MIN_INTERVAL` stays on its grid if and only if the time since its offset, rounded down to
  a whole number of MIN_INTERVALs, is a whole number of its intervals (`EvPeriodic.RecalcOnGridIff`,
  `ShortIntervalCounterexample`).

## Model

| member | source | states |
|---|---|---|
| Wakeup.StepKeepsInv | libev/libev/ev.c:2427-2549 | Every step of a sender (`ev_async_send`, `evpipe_write`, `task_notify`) and of the loop (wait section, `pipecb`, dispatch, drain) keeps the invariant, for any number of senders; a sender that clears another's `pipe_write_skipped` is committed to writing the pipe. |
| Wakeup.ReachableInv | libev/libev/ev.c:3612-3674 | The invariant holds in every state of every interleaving from a fresh loop. |
| Wakeup.NoLostWakeup | libev/libev/ev.c:2427-2478 | When the loop blocks in the backend and no sender is inside `evpipe_write`, a set `async_pending` (or `sig_pending`) implies that the wake-up pipe is readable. |
| Wakeup.NoOverlookedWatcher | libev/libev/ev.c:4912-4917 | A set `sent` implies that the flag is up, that `pipecb` has yet to scan the watcher, or that a sender is about to raise the flag. |
| Wakeup.ExecutedInOrder | src/core/task.c:63-111 | In every run the handlers executed, those of the batch cut off and those queued are together exactly the accepted messages in global order of queueing, each once; `num_msgs` counts the queue modulo 2^32. |
| Wakeup.NoStrandedMessage | src/core/task.c:258-274 | With no notifier mid-call, a loop that blocks although messages are queued has its async watcher sent, the flag up and the pipe readable: coalescing strands nothing. |
| Wakeup.RankShrinks | libev/libev/ev.c:3612-3674 | While messages remain and no thread sends, every loop step lowers a rank. |
| Wakeup.NeverStuck | src/core/task.c:258-274 | With work left the loop always has a step that does not wait for an unrelated event. |
| Wakeup.EveryMessageRuns | src/core/task.c:258-274 | Liveness: from every reachable state in which no thread is mid-send, every run of the loop alone of a known length executes every accepted message. |
| WakeupProgress.NotifiedMessageRuns | src/core/task.c:258-274 | Liveness while others keep sending: in every interleaving, a message whose `task_notify` has returned is executed, in its place in the global order, once the loop has taken a known number of steps; steps during which some sender has yet to raise or take back `pipe_write_skipped` or to write the pipe do not count. |
| WakeupProgress.ReturnedIsAnnounced | src/core/task.c:258-274 | When the call has returned, its message and all before it are cut off the queue, or the loop has found the watcher of the queue, or the watcher is sent and the flag is up. |
| WakeupProgress.LoopPotential | libev/libev/ev.c:3612-3674 | No step of the loop puts an announced message off, and every counted step brings it nearer. |
| WakeupProgress.SenderPotential | libev/libev/ev.c:2427-2478 | No step of a sender puts it off either. |
| WakeupProgress.NeverBlocked | libev/libev/ev.c:2427-2478 | Nor does the loop block before that without the pipe being readable, unless a sender is inside `evpipe_write` or holds the mutex. |
| WakeupRest.LoopComesToRest | libev/libev/ev.c:2481-2549 | From every reachable state in which no thread is mid-send, every run of the loop alone of a known length (the messages, and two turns more than the reads the pipe needs) ends with the pipe empty, no flags, no sent slots, `pipe_write_skipped` down and nothing fed or queued; it stays so, and a blocking poll then returns for unrelated reasons only. |
| WakeupRest.SleepsAtRestOnly | libev/libev/ev.c:3612-3674 | Nor does the loop block while anything of this is left. |
| WakeupRest.SentIsCalled | libev/libev/ev.c:2515-2548 | Every watcher of either kind whose slot is set in any run is called, at the latest when the loop has come to rest. |
| WakeupRest.NoSpuriousCalls | libev/libev/ev.c:2515-2548 | In every run a watcher is called no more often than its slot was set. |
| WakeupRest.OneSend | libev/libev/ev.c:2427-2478 | Coalescing: while the flag is up an undisturbed send leaves pipe and `pipe_write_skipped` alone; otherwise it raises the flag and makes exactly one write if the loop may sleep, and none if not. |
| IntrusiveList.ListAddTail | inc/list.h:90-93 | The node becomes the last of the circle, with all `next` and `prev` links consistent. |
| IntrusiveList.ListDel | inc/list.h:120-125 | Exactly the node at its index leaves the circle. |
| IntrusiveList.ListDelInit | inc/list.h:158-162 | Exactly the node leaves the circle and becomes an empty circle itself. |
| IntrusiveList.ListEmpty | inc/list.h:202-205 | True if and only if the circle has no nodes. |
| IntrusiveList.ListCutPosition | inc/list.h:249-287 | The nodes up to and including the entry become the circle of the new head, the rest that of the old one; cutting at the head leaves the list whole, and a cut at a node that is not on it changes nothing. |
| IntrusiveList.TaskQueue.Add | src/core/task.c:63-74 | The message is appended and the count goes up, modulo 2^32. |
| IntrusiveList.TaskQueue.Drain | src/core/task.c:86-111 | The callback runs exactly the messages that were queued, in order and once; what the handlers post meanwhile is what is queued afterwards. |
| EvHeap.RootIsLeast | libev/libev/ev.c:2286-2317 | In an ordered heap no entry is below the root. |
| EvHeap.UpHeap | libev/libev/ev.c:2320-2340 | Sifting up repairs a heap in which only that entry may be too small, keeps the same watchers, and every `active` is its slot. |
| EvHeap.DownHeap | libev/libev/ev.c:2242-2282 | Sifting down repairs a heap in which only that entry may be too large, likewise. |
| EvHeap.AdjustHeap | libev/libev/ev.c:2342-2350 | An entry out of order in either direction is repaired. |
| EvHeap.ReHeap | libev/libev/ev.c:2352-2362 | Entries in any order become a heap of the same watchers with correct back-indices. |
| EvHeap.TimedHeap.Add | libev/libev/ev.c:3890-3898 | The heap invariant (order, back-indices, cached deadlines) is kept and exactly one watcher is added, also when the array grows. |
| EvHeap.TimedHeap.RemoveAt | libev/libev/ev.c:3917-3928 | Exactly the watcher at the slot is removed, also when the last entry that replaces it belongs above its new place. |
| EvPending.DispatchIsFaithful | libev/libev/ev.c:3284-3302 | Whatever the callbacks feed or stop, each callback goes to a watcher of the highest priority pending at that moment and gets the union of the events fed to it since its last call or stop; a stopped watcher is not called before it is fed again. |
| EvPending.PendingIsHistory | libev/libev/ev.c:1986-2003 | What is pending for a watcher before any call equals what the history of calls, feeds and stops says. |
| EvPending.LaterQueuedFirst | libev/libev/ev.c:3284-3302 | Of two watchers pending with one priority the one queued later is called first, unless a callback stops one of them. |
| EvPending.PendingStacks.FeedEvent | libev/libev/ev.c:1986-2003 | Slots, dummies and back-pointers stay consistent, and the live part changes as in the reference model. |
| EvPending.PendingStacks.ClearPending | libev/libev/ev.c:3784-3793 | The slot gets the dummy, the watcher is no longer pending, and it disappears from the reference model. |
| EvPending.PendingStacks.InvokePending | libev/libev/ev.c:3284-3302 | The calls are exactly those of the reference model, and on return nothing is pending. |
| EvPending.PendingStacks.LaterSlotFirst | libev/libev/ev.c:2005-2018 | Of two pending watchers with one priority the one in the later slot is called first. |
| EvTimers.Loop.TimerStart | libev/libev/ev.c:3883-3905 | Heap order, back-indices and cached deadlines are kept; exactly this timer is added; an active timer is left alone. |
| EvTimers.Loop.TimerStop | libev/libev/ev.c:3907-3935 | Likewise; exactly this timer is removed, its pending event is cleared and `at` becomes the remaining time. |
| EvTimers.Loop.TimerAgain | libev/libev/ev.c:3937-3962 | Restarts, starts or stops according to `repeat` and whether the timer is active, keeping the same invariant. |
| EvTimers.Loop.ExpireAll | libev/libev/ev.c:3331-3359 | The loop terminates and handles exactly the timers that were due, once each in order of deadline: the repeating ones move to max(at + repeat, now), the others stop. |
| EvTimers.Loop.TimersReify | libev/libev/ev.c:3329-3365 | After the pass the due timers have been fed in reverse, so that those that were idle lie on their stacks with the earliest deadline on top; the count of active watchers goes down by one for each timer that stopped. |
| EvTimers.Loop.FeedReverseDone | libev/libev/ev.c:2012-2018 | The watchers collected are fed from the last to the first, and none remains. |
| EvTimers.Loop.EarlierDeadlineFirst | libev/libev/ev.c:3329-3365 | Timers of one priority that expire together and were idle are called in nondecreasing order of deadline, whatever the callbacks before do, unless they stop one of the two. |
| EvPeriodic.PeriodicRecalc | libev/libev/ev.c:3369-3391 | The loop terminates with now < at <= now + interval, and `at` is the first point beyond now of the grid through the estimate. |
| EvPeriodic.RecalcOnGridIff | libev/libev/ev.c:3369-3391 | The result is the least offset + k * interval beyond now if and only if the interval is at least MIN_INTERVAL, or MIN_INTERVAL * floor((now - offset) / MIN_INTERVAL) is a whole multiple of it. |
| EvPeriodic.LongIntervalsAreOnGrid | libev/libev/ev.c:3369-3391 | For every interval of at least MIN_INTERVAL it is. |
| EvPeriodic.ShortIntervalCounterexample | libev/libev/ev.c:3369-3391 | A shorter interval for which the result is off the grid. |
| EvPeriodic.Periodics.PeriodicsReschedule | libev/libev/ev.c:3435-3456 | Every periodic is moved to its new deadline, and the heap is valid again whatever the new keys are. |
| EvPoll.PollTable.Modify | libev/libev/ev_poll.c:51-87 | The dense table holds exactly one entry per descriptor of interest and the index is its inverse, across growth and removal by swapping with the last; the interest changes as asked. |
| EvPoll.PollTable.PollPoll | libev/libev/ev_poll.c:89-130 | The loop over the table stops after as many ready entries as poll(2) returned, and reports exactly these, in order; invalid descriptors are handed to `fd_kill`. |
| EvPoll.AllReported | libev/libev/ev_poll.c:89-130 | Every entry with events is reported. |
| EvPoll.OnlyReported | libev/libev/ev_poll.c:89-130 | Nothing else is. |
| EvIo.WlistDel | libev/libev/ev.c:3769-3782 | Exactly the watcher is unlinked from the singly linked list. |
| EvIo.IoLoop.IoStart | libev/libev/ev.c:3838-3862 | Keeps the reconciliation invariant: a descriptor that is not marked has `events` equal to the union of its watchers' masks, and `fdchanges` lists exactly the marked ones, once each. |
| EvIo.IoLoop.IoStop | libev/libev/ev.c:3864-3881 | Keeps the same invariant; exactly this watcher becomes inactive and leaves its list, and what was pending for it is dropped, even if it was not active. |
| EvIo.IoLoop.FdChange | libev/libev/ev.c:2125-2138 | A descriptor is listed when it is first marked, and not again. |
| EvIo.IoLoop.FdReify | libev/libev/ev.c:2064-2123 | Afterwards nothing is marked and the invariant with the backend's table holds. |
| EvIo.IoLoop.FdEvent | libev/libev/ev.c:2028-2055 | A marked descriptor gets nothing; otherwise every watcher whose mask the report meets is fed the intersection, in list order. |
| EvIo.IoLoop.Reconciled | libev/libev/ev.c:2064-2123 | Then the table of poll has exactly one entry for each descriptor that a watcher wants anything of; POLLIN, POLLOUT and POLLPRI are set if and only if some watcher wants to read, to write, or to know of exceptional conditions; every other index entry is -1. |
| EvIo.IoLoop.WantedByWatchers | libev/libev/ev.c:2084-2094 | What is wanted of a descriptor is exactly what its active watchers want. |
| EvIo.IoLoop.ReportsReachTheirWatchers | libev/libev/ev.c:2028-2055 | A report is fed to exactly the active watchers of its descriptor whose masks it meets, and what the backend was asked for reaches somebody. |
| EvIo.IoLoop.ReadinessReachesWatchers | libev/libev/ev_poll.c:112-129 | From poll(2) to the callbacks: of what the kernel reports exactly the active watchers of the descriptor that asked for it are fed, with what they asked for, errors and hang-ups counting as readable and writable; nobody is fed if and only if it is just an error and all watchers are for exceptional conditions. |
| JsonRoundTrip.RoundTrip | src/utils/cJSON.c:357-658 | For every tree, depth and format, wherever its text stands (before anything that does not go on a number): parsing gives an equal tree and stops right behind the text. |
| JsonRoundTrip.ParsePrinted | src/utils/cJSON.c:323-345 | Parsing a printed document, formatted or not, gives an equal tree and consumes it all. |
| JsonRoundTrip.EscapeRoundTrip | src/utils/cJSON.c:192-307 | What the printer escapes is what the parser restores, character by character. |
| JsonParse.ParseValue | src/utils/cJSON.c:357-369 | The recursive parser computes the parsing function, on malformed texts too; for those that make the source read past the NUL see below. |
| JsonParse.ParseNumber | src/utils/cJSON.c:95-115 | The loops over digits compute the value, as an exact real, and the end that the function gives. |
| JsonParse.ParseString | src/utils/cJSON.c:192-249 | Likewise for string literals, surrogate pairs included; the text of a well-formed literal fits the buffer whose size the first loop has counted. |
| JsonParse.LiteralFits | src/utils/cJSON.c:198-200 | In a literal in which something stands behind every backslash and four hexadecimal digits behind every \u, the second loop writes no more than the first has counted, and ends where it ended. |
| JsonGrammar.ParsesIff | src/utils/cJSON.c:357-547 | For every text, position, value and end: the parser gives this value and this end if and only if the text between them is in the grammar of words, numbers, string literals and values between brackets with commas and colons. |
| JsonLiterals.UnicodeRead | src/utils/cJSON.c:177-238 | The \u escape of every Unicode scalar value but 0, by one escape or by a surrogate pair, with digits in either case, is read as the bytes that a decoder of RFC 3629 turns back into it. |
| JsonLiterals.StringRead | src/utils/cJSON.c:192-249 | Every string literal, closed or ended by the end of the text, is read piece by piece as what it stands for: all strings of RFC 8259, and beyond them backslashes before other characters, which stand for themselves, and \u escapes that are no character (NUL, a half of a surrogate pair without the other) or lack four hexadecimal digits, which stand for nothing. |
| JsonLiterals.NumberRead | src/utils/cJSON.c:95-115 | Every number, with fraction and exponent, is read as its value, and the parser stops behind it: all numbers of RFC 8259, and beyond them those without digits before the point or in the exponent, or with a leading 0. |
| JsonLiterals.QuoteIsRfc | src/utils/cJSON.c:252-307 | Every string is printed as a string of RFC 8259, control characters escaped. |
| JsonLiterals.IntIsRfc | src/utils/cJSON.c:147-175 | Every 32-bit integer, and any other, is printed as a number of RFC 8259. |
| JsonLayout.ObjectLayout | src/utils/cJSON.c:550-658 | The formatted text of an object with two fields, character by character. |
| JsonLayout.InnerObjectLayout | src/utils/cJSON.c:550-658 | That of an object inside another. |
| JsonLayout.ArrayLayout | src/utils/cJSON.c:434-511 | The text of an array of two elements, formatted or not. |
| JsonPrint.PrintStringPtr | src/utils/cJSON.c:252-307 | The buffer is exactly as long as the escaped text and its NUL, and holds it. |
| JsonPrint.PrintArray | src/utils/cJSON.c:434-511 | Writes never leave the computed length, and the text is that of the array. |
| JsonPrint.PrintObject | src/utils/cJSON.c:550-658 | Likewise for objects, in both formats. |
| JsonPrint.PrintValue | src/utils/cJSON.c:372-403 | The text of every value, in a buffer of its own. |
| JsonBuffer.PrintBuffer.Ensure | src/utils/cJSON.c:117-136 | There is room for what is needed and nothing written is lost. |
| JsonBuffer.PrintBuffer.PrintInto | src/utils/cJSON.c:372-403 | The growing buffer then shows what it held, followed by the text of the value. |
| JsonBuffer.PrintBuffered | src/utils/cJSON.c:345-353 | For every tree, format and positive initial size the text is the one the other printer makes. |
| JsonMinify.MinifyPrinted | src/utils/cJSON.c:735-750 | Stripping the printed text gives the unformatted text of the tree, string contents untouched. |
| JsonMinify.MinifyInPlace | src/utils/cJSON.c:735-750 | The in-place loop, with its two pointers into one buffer, computes the stripping function. |
| JsonComments.MinifyTokens | src/utils/cJSON.c:735-750 | Of any sequence of white space, comments of both kinds, string literals, single slashes and other characters exactly the literals, the slashes and the other characters are left, in order. |
| JsonComments.CommentIff | src/utils/cJSON.c:746 | A comment between marks is taken for one if and only if its text does not begin with a slash. |
| BHash.BHashContext.constructor | src/utils/bhash.c:69-94 | An empty map over any number of buckets. |
| BHash.BHashContext.Lookup | src/utils/bhash.c:111-131 | The element of the key if and only if the map has it, for every hash function. |
| BHash.BHashContext.Add | src/utils/bhash.c:140-159 | Fails exactly when the key is present; otherwise exactly this element is added, in its own bucket only. |
| BHash.BHashContext.Del | src/utils/bhash.c:168-194 | Fails exactly when the key is absent; otherwise exactly its element is removed. |
| Crc.CalcCrc | src/protocols/modbus/modbus_crc.c:54-68 | The two-table loop equals the bit-by-bit CRC of section 6.2.2, for every byte sequence. |
| Crc.TableOk | src/protocols/modbus/modbus_crc.c:10-52 | Each pair of table entries is what eight shifts make of its index. |
| Crc.CrcGate | src/protocols/modbus/modbus_rtu_slave.c:214-221 | The CRC over prefix, a, b is 0 if and only if a and b are the low and high byte of the CRC of the prefix. |
| Crc.StandardExample | src/protocols/modbus/modbus_crc.c:54-68 | The example of section 6.2.2: 02 07 has the CRC 0x1241. |
| Crc.BurstDetected | src/protocols/modbus/modbus_crc.c:54-68 | Frames of one length, however long, that differ only within two adjacent bytes have different CRCs. |
| CrcShift.BitsInjective | src/protocols/modbus/modbus_crc.c:10-52 | Nothing is lost in eight shifts of the register. |
| Mbap.RunAppend | src/protocols/modbus/mbap_reader.c:73-81 | It does not matter how the bytes are cut into chunks. |
| Mbap.StreamRun | src/protocols/modbus/mbap_reader.c:4-49 | A stream of frames with length fields from 2 to 254 gives exactly these frames, once each and in order. |
| Mbap.FrameDeliveredIff | src/protocols/modbus/mbap_reader.c:15-46 | A frame is handed on if and only if its length field is from 2 to 254. |
| Mbap.OnlyFrames | src/protocols/modbus/mbap_reader.c:4-49 | On arbitrary bytes nothing else is ever handed on. |
| Mbap.ReturnsToHeader | src/protocols/modbus/mbap_reader.c:29-35 | On arbitrary bytes the reader is back in header state within 261 bytes, even for a length of 0 or 1. |
| Mbap.MbapReader.StateMachine | src/protocols/modbus/mbap_reader.c:4-49 | One byte changes frame, index, counters and header fields as the automaton says; the index never exceeds 260. |
| Mbap.MbapReader.Feed | src/protocols/modbus/mbap_reader.c:73-81 | The callback is invoked once per frame of the automaton, with its tid, pid, length and unit. |
| ModbusEndToEnd.EndToEnd | src/protocols/modbus/modbus_master.c:13-205 | For every request, device and buffer: the device changes exactly in the addressed cells; the response is right byte for byte (of a read, a combined one too, the cells as they are afterwards; of a write the first five bytes of the request; or the exception code 2, 3, 4 or 6 for the reason); and the master accepts it if and only if the counts are in range and the device has the cells; then read callbacks get the device's values. |
| ModbusEndToEnd.ResponseFits | src/protocols/modbus/modbus_rtu_request_handler.c:23-90 | The response to any PDU at all has at most 253 bytes, and at least one if the request had any. |
| ModbusEndToEnd.WriteAcceptedIff | src/protocols/modbus/modbus_rtu_response_handler.c:65-110 | Of all responses whatever, after a write the master accepts the first five bytes of its request, and nothing else. |
| ModbusEndToEnd.ReadAcceptedIff | src/protocols/modbus/modbus_rtu_response_handler.c:8-64 | After a read it accepts exactly those with the function code of the request, the length that the byte count says and room for the cells asked for. |
| ModbusEndToEnd.ExceptionChangesNothingIff | src/protocols/modbus/modbus_func_holding.c:189-263 | After an exception the device is unchanged, unless the write half of a combined request was done and made a difference. |
| ModbusEndToEnd.HalfDoneCounterexample | src/protocols/modbus/modbus_func_holding.c:189-263 | A request that is refused and has changed the device. |
| ModbusEndToEnd.CountTruncated | src/protocols/modbus/modbus_func_holding.c:144-150 | The slave answers a holding register read if and only if the count modulo 256 is in range. |
| ModbusEndToEnd.CountTruncatedExample | src/protocols/modbus/modbus_func_holding.c:144-150 | 257 registers are asked for, one is sent back as a success, and the master refuses it. |
| ModbusReceived.OnlyReceivedIff | src/protocols/modbus/modbus_func_holding.c:69-124 | Device and response depend on the bytes received only, if and only if there is a function code and an accepted write of several cells has all the bytes it declares; for every PDU. |
| ModbusReceived.UncoveredDiffers | src/protocols/modbus/modbus_func_coils.c:159-224 | Otherwise two fillings of the rest of the buffer lead to different results. |
| ModbusReceived.CoveredAlike | src/protocols/modbus/modbus_func_holding.c:189-263 | With enough bytes received no device and no rest of the buffer makes a difference. |
| ModbusReceived.TakenIsRequest | src/protocols/modbus/modbus_rtu_request_handler.c:23-90 | Of all PDUs with enough bytes the slave takes only requests with counts in range; it refuses with code 1 if and only if the function code is none of the nine, and all else with code 3. |
| ModbusExamples.CoilsWritten | src/protocols/modbus/modbus_master.c:112-147 | The example of section 6.11 of the protocol, byte for byte. |
| ModbusExamples.RegistersWritten | src/protocols/modbus/modbus_master.c:149-173 | The example of section 6.12. |
| ModbusExamples.ReadAndWritten | src/protocols/modbus/modbus_master.c:175-205 | The example of section 6.17. |
| Modbus.BitsRoundTrip | src/protocols/modbus/modbus_master.c:127-145 | Coils packed eight to the byte are unpacked again, whatever follows. |
| Modbus.RegsRoundTrip | src/protocols/modbus/modbus_master.c:166-170 | Registers sent high byte first are decoded again, whatever follows. |
| ModbusMaster.MasterCtx.WriteMultipleCoils | src/protocols/modbus/modbus_master.c:112-147 | The nested loops that set bit after bit leave the encoded request in the buffer and remember what the validator needs; the byte count wraps as uint8_t. |
| ModbusMaster.MasterCtx.WriteMultipleRegisters | src/protocols/modbus/modbus_master.c:149-173 | Likewise for registers. |
| ModbusMaster.MasterCtx.WriteAndReadRegisters | src/protocols/modbus/modbus_master.c:175-205 | Likewise for the combined request. |
| ModbusMaster.MasterCtx.WriteSingleCoil | src/protocols/modbus/modbus_master.c:86-97 | Likewise for one coil, also remembering the value. |
| ModbusMaster.MasterCtx.ReadCoilsReq | src/protocols/modbus/modbus_master.c:38-48 | Likewise for a read, keeping the value remembered before. |
| ModbusMaster.MasterCtx.ReadDiscreteInputs | src/protocols/modbus/modbus_master.c:50-60 | Likewise for discrete inputs. |
| ModbusMaster.MasterCtx.ReadHoldingRegisters | src/protocols/modbus/modbus_master.c:62-72 | Likewise for holding registers. |
| ModbusMaster.MasterCtx.ReadInputRegisters | src/protocols/modbus/modbus_master.c:74-84 | Likewise for input registers. |
| ModbusMaster.MasterCtx.WriteSingleRegister | src/protocols/modbus/modbus_master.c:99-110 | Likewise for one register, also remembering the value. |
| ModbusMaster.PackByteAppend | src/protocols/modbus/modbus_master.c:139-143 | Or-ing in bit after bit builds the packed byte. |
| ModbusSlave.HandleReadHolding | src/protocols/modbus/modbus_func_holding.c:126-187 | The response written over the request is that of the specification, in every branch. |
| ModbusSlave.HandleWriteRegisters | src/protocols/modbus/modbus_func_holding.c:69-124 | Likewise, with the new state of the device. |
| ModbusSlave.HandleReadWriteRegisters | src/protocols/modbus/modbus_func_holding.c:189-263 | Likewise, the half-done and the too short request included. |
| ModbusSlave.HandleWriteRegister | src/protocols/modbus/modbus_func_holding.c:37-67 | Likewise for one register. |
| ModbusSlave.HandleReadCoils | src/protocols/modbus/modbus_func_coils.c:29-105 | Likewise for coils. |
| ModbusSlave.HandleWriteCoil | src/protocols/modbus/modbus_func_coils.c:107-157 | Likewise for one coil. |
| ModbusSlave.HandleWriteMultipleCoils | src/protocols/modbus/modbus_func_coils.c:159-224 | Likewise for several. |
| ModbusSlave.HandleReadInput | src/protocols/modbus/modbus_func_input.c:20-83 | Likewise for input registers. |
| ModbusSlave.HandleReadDiscrete | src/protocols/modbus/modbus_func_discrete.c:18-94 | Likewise for discrete inputs. |
| ModbusSlave.RequestRx | src/protocols/modbus/modbus_rtu_request_handler.c:23-90 | Dispatch and exception rewriting in place give device and response of the specification, and change nothing outside the PDU. |
| ModbusTcp.ConversationIsIdeal | src/protocols/modbus/modbus_tcp_master.c:29-112 | However long the conversation, to whatever units, broadcasts included, whatever is left in the readers' buffers, and with any number of late or stray frames of other transactions before and after each answer: the device and what the application of the master is told are those of an ideal without frames and buffers, except for requests numbered 65535. |
| ModbusTcp.TransactIs | src/protocols/modbus/modbus_tcp_slave.c:45-94 | One transaction through both readers: the request arrives, is answered in place if it is for this slave alone, the answer is picked out of what comes in, and both readers are ready for the next. |
| ModbusTcp.StrayDropped | src/protocols/modbus/modbus_tcp_master.c:99-109 | A frame with another transaction number or protocol number than the outstanding request has is dropped, whatever else it says. |
| ModbusTcp.AduCall | src/protocols/modbus/mbap_reader.c:15-46 | What the sender puts into the header is what the reader's callback is told. |
| ModbusTcp.AnswerLostIff | src/protocols/modbus/modbus_tcp_master.c:99-103 | The answer to a request that is carried out is dropped if and only if the number of the request is 65535. |
| ModbusTcp.LostAnswerExample | src/protocols/modbus/modbus_tcp_master.c:99-103 | The same request with number 0, which is answered, and with number 65535, whose answer is lost. |
| ModbusTcp.TcpMaster.Request | src/protocols/modbus/modbus_tcp_master.c:29-58 | The header is put before the PDU, the number goes up modulo 65536, also when the stream fails; nothing happens when not connected. |
| ModbusTcp.TcpSlave.HandleRxFrame | src/protocols/modbus/modbus_tcp_slave.c:45-94 | The answer is written in place with its length patched; broadcasts are handled but not answered, frames for others ignored; the counters. |
| ModbusTcp.NoticeRight | src/protocols/modbus/modbus_rtu_response_handler.c:122-179 | A response is reported to the callback of the right table with the right address, count and values, once, or not at all. |
| ModbusRtu.RtuTransaction | src/protocols/modbus/modbus_rtu_slave.c:131-224 | A request in range to any unit, cut into any chunks, is collected and passes the CRC gate; the device changes as it should if the request is for this slave or for all; and if it is for this slave alone there is one answer, with the slave's address, the right response byte for byte and a CRC that passes the gate. |
| ModbusRtu.CorruptedIgnored | src/protocols/modbus/modbus_rtu_slave.c:214-221 | A frame changed on the way within two adjacent bytes has no effect and gets no answer. |
| ModbusRtu.CollectsIff | src/protocols/modbus/modbus_rtu_slave.c:265-283 | Chunks of up to 128 bytes are collected whole if and only if they have less than 256 bytes together. |
| ModbusRtu.LongFrameCounterexample | src/protocols/modbus/modbus_rtu_slave.c:265-283 | Every frame of 256 bytes that comes in two halves: only the second is kept. |
| ModbusRtu.Gate | src/protocols/modbus/modbus_rtu_master.c:24-29 | A frame passes the gate if and only if it ends in the CRC bytes that the senders append. |
| ModbusRtu.FrameExample | src/protocols/modbus/modbus_rtu_master.c:24-29 | The example of section 6.2.2 as a frame: 02 07 41 12. |
| ModbusRtu.CountersShow | src/protocols/modbus/modbus_rtu_slave.c:131-224 | After any number of frames the frame counters show it modulo 2^32. |
| ModbusRtu.ErrorCountersShow | src/protocols/modbus/modbus_rtu_slave.c:189-224 | The error counters show the number of errors, or 65535 if there were more. |
| ModbusRtu.RtuSlave.Rx | src/protocols/modbus/modbus_rtu_slave.c:265-283 | The buffer then holds what has been collected; an overflow drops what was there and is counted. |
| ModbusRtu.RtuSlave.StartHandlingRxFrame | src/protocols/modbus/modbus_rtu_slave.c:189-224 | Empty, short and corrupted frames are dropped and counted; others have the effect and the answer of the specification; the buffer is empty again. |
| ModbusRtu.RtuMaster.Request | src/protocols/modbus/modbus_rtu_master.c:18-37 | What is sent is address, PDU and CRC, low byte first. |
| ModbusBits.SetBits | src/protocols/modbus/modbus_util.c:17-53 | The two bytes are rewritten as the specification says. |
| ModbusBits.GetBits | src/protocols/modbus/modbus_util.c:55-82 | The bits of the field, as `BitsFromAt` describes them one by one, and zeros above. |
| ModbusBits.WithBitsAt | src/protocols/modbus/modbus_util.c:17-53 | What setting a field does to every bit of the buffer. |
| ModbusBits.OthersKeptIff | src/protocols/modbus/modbus_util.c:45-48 | The bits outside the field stay as they were if and only if the bits of the value beyond the field are already set there. |
| ModbusBits.SpillExample | src/protocols/modbus/modbus_util.c:45-48 | The value 3 in a field of one bit sets the bit behind the field. |
| ModbusBits.SecondByteMattersIff | src/protocols/modbus/modbus_util.c:55-82 | The byte behind the first is always read; the result depends on it if and only if the field does not end in the first. |
| ModbusBits.SecondByteKept | src/protocols/modbus/modbus_util.c:17-53 | It is always written, but keeps its value if the field ends in the first byte and the value fits the field. |
| ModbusBits.SetThenGet | src/protocols/modbus/modbus_util.c:55-82 | What was set is got back, cut to the width of the field. |

## Left out

- Sockets, serial ports, reconnecting, `src/cli`, `src/debug`, `src/demo`, `src/utils/config_reader.c` and the like: input and output only. What a stream accepts is a parameter.
- `src/stream/stream.c` and `src/utils/sbuf.c`: not part of this model; the streams are sequences of the writes they were given.
- `circ_buffer.c`, `request_queue.c`, `telnet_reader.c`, `item_pool.c`, `watcher.c` and `trace.c`.
- `fd_kill`, to which the poll backend hands invalid descriptors, and errors of poll(2) itself.
- Backends other than poll, inotify, signalfd, forking, embedding and idle, prepare, check, stat and child watchers: they rest on the kernel or repeat the same pattern.
- Memory fences: the steps of the wake-up model are sequentially consistent, and each reads or writes one shared variable.
- Wakeup.EveryMessageRuns: handlers do not block, and nested runs of the loop are not modelled.
- WakeupProgress.NotifiedMessageRuns: likewise; the bound is in steps of the loop and says nothing of time.
- Signals as interrupts of the loop's own thread: a signal is sent by one of the senders.
- EvTimers.Loop.TimersReify: `periodics_reify` has the same shape and is not modelled again; its parts, `PeriodicRecalc` and the heap, are.
- Changing the priority or the deadline of an active or pending watcher, which libev forbids.
- EvPending.PendingStacks.InvokePending: callbacks are scripts of feeds and stops; that they may also start watchers and run the loop is not modelled.
- Rounding of times: they are exact reals; the test for `next == at` in `periodic_recalc` is kept, though it never holds for a positive interval.
- How far arrays are grown: growing keeps the contents, and the room gained is a parameter.
- JsonRoundTrip.RoundTrip: numbers that are not 32-bit integers are not printed (`%e`, `%f`), and the round trip is not stated for strings with NUL in them.
- JsonParse.ParseValue: the parser returns values and does not link nodes of the heap; allocation never fails; `cJSON_ParseWithOpts` without its options. A literal whose text ends right behind a backslash makes the source step over the NUL and read on; the model reads NULs there, so for such a text it says nothing about the source.
- JsonParse.ParseNumber: numbers are exact reals and the exponent is unbounded, where the source computes with doubles, `pow` and an int.
- JsonParse.ParseString: the same literal that ends behind a backslash, and \u with fewer than four hexadecimal digits, for which the source may also leave the literal or its buffer; there only the resulting text is modelled.
- JsonMinify.MinifyInPlace: texts with an unfinished literal or comment, for which the source reads past the NUL.
- JsonBuffer.PrintBuffer.Ensure: the next power of two is computed by doubling and not by shifts; an initial size of 0 is not modelled: what the source then does depends on what `malloc(0)` gives.
- ModbusEndToEnd.EndToEnd: after a combined write and read the callback is given no values, as in the source; the device is a reference device whose callbacks refuse accesses outside its tables or with a fault.
- ModbusMaster.MasterCtx.WriteMultipleRegisters: a count for which the request overflows `tx_buf` is excluded, as the source does not check it.
- ModbusMaster.MasterCtx.WriteAndReadRegisters: likewise.
- ModbusBits.SetBits: a field that begins in the last byte of the buffer is excluded. The source then touches the byte behind the buffer, even if the field ends in the last byte; it leaves that byte as it was if the value fits (`SecondByteKept`).
- ModbusBits.GetBits: likewise; the result does not depend on the byte behind the buffer if and only if the field ends in the last byte (`SecondByteMattersIff`).
- ModbusBits.WithBitsAt: the same fields, which lie in the last byte of the buffer.
- ModbusBits.OthersKeptIff: likewise.
- ModbusBits.SetThenGet: likewise.
- ModbusTcp.ConversationIsIdeal: one request at a time, each of which fits a PDU; a longer one makes the slave's reader drop bytes, which `Mbap.ReturnsToHeader` bounds.
- ModbusRtu.RtuTransaction: the receiving side of the serial master is not there in the source; timers are the calls of `StartHandlingRxFrame`.
- ModbusSlave.RequestRx: MODBUS_USE_REGISTER_NUMBER is taken to be undefined, as in the build.
- `modbus_def_user.c`, which is not in the build.
