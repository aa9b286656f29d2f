# A verified model of the token plugin's hard parts

The repository is a browser plugin for a USB token: a HID driver on libusb, a library that talks to the token, and the
FireBreath framework that puts both into a browser through NPAPI. This project models seven of their protocols and algorithms in
Dafny and proves what they keep over every input, run and interleaving.

`dafny verify dfyconfig.toml` checks everything. No file depends on anything but the others.

| Part | Specification and main results | The code as it runs |
|---|---|---|
| Input reports of a HID device | `ReportQueue.dfy`; `ReadThread.dfy`, `ShutdownWakeup.dfy`, `ReadProgress.dfy`, `ReadRefinement.dfy` (interleavings) | `HidDevice.dfy` |
| Report descriptor scan | `HidDescriptor.dfy` | `HidDescriptor.dfy` |
| Cross-thread calls | `AsyncCallProtocol.dfy`, `AsyncCallProgress.dfy` (interleavings) | `AsyncCallPool.dfy` |
| Streams, from NPAPI to the HTTP callback | `StreamEvents.dfy`, `StreamLifetime.dfy`, `StreamBody.dfy`, `StreamOutcome.dfy`, `HttpHeaders.dfy` | `NpapiStreams.dfy`, `StreamHelper.dfy` |
| Event source and stream manager | `EventDelivery.dfy`, `ObserverCalls.dfy` | `EventSource.dfy` |
| Reference counts of NPObjects | `ReferenceCounts.dfy`, `WrapperRetention.dfy` | `NpapiHost.dfy` |
| Token packets and key transfer | `PacketScrambler.dfy`, `KeyTransfer.dfy`, `KeyDelivery.dfy`, `HexCodec.dfy` | `TokenPort.dfy`, `PacketScrambler.dfy`, `HexCodec.dfy` |

Code that changes objects in place is modelled by classes and arrays. Each of its methods is proved equal to a function of
the old state, and the promises are proved about those functions: over all runs, or, where threads interleave, over all
sequences of atomic steps. Accesses under a mutex are one step; unlocked reads and writes of a flag are steps of their own.

What a promise turned out not to cover is stated as a result, with an input and the exact condition:

- the bound of the report list is 32, not the 30 that the comment names (`ReportQueue.DropsOnlyWhenFull`);
- a fatal error of the event loop reaches the last broadcast with the shutdown flag clear, and then, and only then, a reader
  can fall asleep that nothing will wake (`ShutdownWakeups.FatalErrorStrandsReaders`, `BlockedAfterBroadcastIffFlagClear`,
  `StaysAsleep`); without one the flag is always set (`NoLostShutdownWithoutFatalError`);
- nobody looks at the result of the first submission of the transfer: when it fails, no report ever arrives, and only `hid_close`
  sets the flag (`ReadProgress.FailedFirstSubmissionIsDeaf`); when it succeeds, a transfer is submitted as long as the flag is
  clear (`SubmittedWhileLooping`);
- with two readers, one can sleep beside a queued report (`ShutdownWakeups.SecondReaderMissesReport`); with one it cannot
  (`ReadThread.ReachableIsSafe`);
- `ScheduleAsyncCall` documents false as "could not be scheduled", yet the function may have been called
  (`AsyncCallProtocol.FalseYetCalled`): it has if and only if the host copied its list between two steps of the call
  (`FalseCalledIff`), and never when the flag was set before (`FlagSetMeansNeverCalled`);
- a seekable request that has already completed can still be rejected, which sends FailedOpen after Completed; this is the
  only way out of the event language (`StreamEvents.EventLanguage`, `LateRejectionExample`);
- a stream keeps itself alive for ever unless it is notified and some call detaches it (`StreamLifetimes.ReleasedIff`):
  a rejected one, one that is never offered, and one that is closed after the host's shutdown do (`RejectionLeaks`,
  `FailedRequestLeaks`, `CloseAfterShutdownLeaks`);
- the callback is told success for a stream that the user closes early and for one whose failure the browser notifies while
  it is open (`StreamOutcomes.EarlyEndReportsSuccess`); which call decides is exact (`SuccessIff`, `CallbackSuccessIff`);
- a reply that is cut short passes, with old bytes in the key, and an empty one is judged by an old byte
  (`KeyTransfer.ChunkDeterminedIffWhole`, `StatusDeterminedIff`, `ShortReplyAccepted`); the status byte 0 passes as well as
  128 (`KeyTransfer.ReplyRecovered`); and the scratch buffer is four bytes short (`KeyTransfer.InBoundsIff`);
- the wrapper cache goes by address, so an API can be given the wrapper of a dead one: exactly when an older API at its
  address was given a wrapper that still lives (`ReferenceCounts.WrapperIsForApiIff`, `WrapperOfADeadApi`), which up to the
  shutdown is never an auto-release wrapper (`WrapperRetention.AutoWrapperIsForApi`);
- a wrapper destroyed after its host loses its reference (`ReferenceCounts.LostIsNeverReleased`), and only then
  (`ReferencesConserved`);
- the scan takes every key from 0xF0 on for a long item, where section 6.2.2.3 of the HID specification, version 1.11, has
  only 0xFE; an input that hides a Usage, the exact condition at each item, and agreement of the answers wherever it holds
  (`HidDescriptor.ReservedItemHidesUsage`, `StepAgreesIff`, `AnswerIsStandard`);
- after data with gaps the helper can write beyond the buffer that it joins its blocks into: exactly when the last block begins
  beyond the received length (`StreamHelpers.JoinInBoundsIff`, `GapOverrunsBuffer`);
- a success that arrives without its stream drops the callback (`StreamBody.CalledIffFirstHasStream`).

What is assumed of the surroundings: steps are sequentially consistent; the browser fires an accepted call at most once and
while the manager lives; `NPN_DestroyStream` calls `NPP_DestroyStream` back before it returns; the browser makes one
`NPStream` for a stream; handlers of stream events do not call `close`.

## Model

| member | source | states |
|---|---|---|
| ReportQueue.RunSound | token-DLL/lib/hid-libusb.c:649-683 | Over every history, removed reports followed by queued ones are exactly the arrivals, at most 32 are queued, and a drop comes with the 32nd later arrival. |
| ReportQueue.NewestArrivals | token-DLL/lib/hid-libusb.c:657-682 | The list is the newest arrivals in order, and reports leave in arrival order. |
| ReportQueue.DropsOnlyWhenFull | token-DLL/lib/hid-libusb.c:667-681 | An arrival drops a report if and only if 32 are queued, and then the oldest. |
| HidLibusb.HidDevice.ReturnData | token-DLL/lib/hid-libusb.c:964-976 | The first node is unlinked, its first min(length, len) bytes are copied, and the rest of the buffer is left alone. |
| HidLibusb.HidDevice.LinkLast | token-DLL/lib/hid-libusb.c:666-673 | Walking the links appends the node and counts one link less than the nodes there were. |
| HidLibusb.HidDevice.Completed | token-DLL/lib/hid-libusb.c:649-683 | The linked list refines the bounded FIFO's arrival, and the condition is signalled exactly for an empty list. |
| HidLibusb.HidDevice.ClearReports | token-DLL/lib/hid-libusb.c:1166-1171 | Closing frees every queued report. |
| HidLibusb.HidDevice.ReadTimeout | token-DLL/lib/hid-libusb.c:985-1067 | A read call on the linked list, blocking, timed or neither, refines the read of the FIFO whatever other threads do while it sleeps. |
| HidLibusb.DisconnectOnlyWhenDrained | token-DLL/lib/hid-libusb.c:1000-1057 | Apart from a wait error, -1 is returned only with the list empty and the shutdown flag set. |
| HidLibusb.DeliversNextArrival | token-DLL/lib/hid-libusb.c:996-1057 | A delivering read returns the prefix of the next report in arrival order and keeps the FIFO sound. |
| HidLibusb.ReadCallDecided | token-DLL/lib/hid-libusb.c:996-1057 | What a call returns, and its return code, is decided by the device after the first wake-up at which a report is queued, the flag is set, or a timed wait ends otherwise; at once, if the call may not wait. |
| ReadThread.RunKeeps | token-DLL/lib/hid-libusb.c:644-765 | Every interleaving keeps mutual exclusion, the phases, the readers' knowledge and the FIFO. |
| ReadThread.ReachableIsSafe | token-DLL/lib/hid-libusb.c:644-1067 | In every reachable state: the mutex excludes, the FIFO is sound, -1 is only about to be returned with an empty list, the transfer exists before it is cancelled, and a single reader never sleeps beside a report. |
| ShutdownWakeups.QuietForever | token-DLL/lib/hid-libusb.c:1006-1057 | Once the flag is set and nobody is stuck, no run makes anybody stuck. |
| ShutdownWakeups.NoLostShutdown | token-DLL/lib/hid-libusb.c:734-765 | If the flag was set at the broadcast, no reader is blocked, or on its way to a wait, at any later point. |
| ShutdownWakeups.NoLostShutdownWithoutFatalError | token-DLL/lib/hid-libusb.c:734-765 | In every run without a fatal error the flag is set at the broadcast, and no reader is blocked at any later point. |
| ShutdownWakeups.BlockedAfterBroadcastIffFlagClear | token-DLL/lib/hid-libusb.c:753-765 | After the broadcast a reader can come to be blocked if and only if the flag is clear. |
| ShutdownWakeups.StaysAsleep | token-DLL/lib/hid-libusb.c:1006-1057 | After the broadcast, a sleeping reader stays asleep through every run without a wake-up of its own. |
| ShutdownWakeups.FatalErrorStrandsReaders | token-DLL/lib/hid-libusb.c:734-765 | The break on a fatal error is a run that reaches the broadcast with the flag clear; a reader then falls asleep and stays so through every run without a wake-up of its own. |
| ShutdownWakeups.SecondReaderMissesReport | token-DLL/lib/hid-libusb.c:657-661 | With two readers, signalling only on the first report leaves one asleep beside a queued report. |
| ReadProgress.ShutdownIff | token-DLL/lib/hid-libusb.c:684-704 | In every run the flag is set if and only if the transfer was cancelled or lost its device, could not be submitted again, or `hid_close` was called; it stays set. |
| ReadProgress.MutexIsReleased | token-DLL/lib/hid-libusb.c:644-1171 | No deadlock: whoever has the mutex can let go of it by steps of its own. |
| ReadProgress.ThreadCanEnd | token-DLL/lib/hid-libusb.c:734-765 | Once one of these has set the flag, the read thread can reach its end, with a broadcast that finds the flag set and leaves nobody blocked. |
| ReadProgress.CancelledTransferSetsFlag | token-DLL/lib/hid-libusb.c:746-765 | After a fatal error, a transfer that is cancelled and waited for sets the flag before the broadcast, so nobody is stranded. |
| ReadProgress.CallReturns | token-DLL/lib/hid-libusb.c:996-1067 | With the flag set, a call that is not blocked returns by its own steps, with the oldest report or a disconnect. |
| ReadProgress.EveryReaderIsTold | token-DLL/lib/hid-libusb.c:753-1067 | From every state with the flag set, the thread can end, and every call that is under way can then return: it delivers the oldest report or, if there is none, tells of the disconnect. |
| ReadProgress.CloseFinishes | token-DLL/lib/hid-libusb.c:1144-1171 | `hid_close` can be called in every state and can finish: the thread has ended, nothing is queued, nobody is blocked. |
| ReadProgress.SubmittedWhileLooping | token-DLL/lib/hid-libusb.c:692-748 | Unless the first submission fails, a transfer is submitted whenever the read thread is in its loop with the flag clear. |
| ReadProgress.FailedFirstSubmissionIsDeaf | token-DLL/lib/hid-libusb.c:724-748 | After a failed first submission no run brings a report, and only `hid_close` sets the flag. |
| ReadRefinement.CallRefinesReadCall | token-DLL/lib/hid-libusb.c:985-1067 | Among any other threads, a read call returns what the call on the device returns for the wake-ups it met, and leaves the list the same. |
| ReadRefinement.OtherStep | token-DLL/lib/hid-libusb.c:649-683 | A step of another thread changes the list only by an arrival, a take or a clear, and not while the call holds the mutex. |
| HidDescriptor.GetUsage | token-DLL/lib/hid-libusb.c:181-249 | The answer that the items of the scan give: 0 if and only if both items occur, with the most recent value of each, cut to 16 bits, at the item that first completes the pair; the answer of the specification's items wherever the two readings agree; inside the descriptor and ending on every input. |
| HidDescriptor.StepAgreesIff | token-DLL/lib/hid-libusb.c:191-203 | The scan and the specification go on at the same place, or are both done, if and only if the key is long for neither or for both, or is the last byte, or the next byte makes the lengths equal, or the descriptor ends within both. |
| HidDescriptor.AnswerIsStandard | token-DLL/lib/hid-libusb.c:181-249 | On every descriptor on which they agree up to the item that completes the pair, the scan's answer is the specification's. |
| HidDescriptor.ReservedItemHidesUsage | token-DLL/lib/hid-libusb.c:191-203 | A descriptor in which the scan finds nothing and the specification has a Usage Page and a Usage. |
| HidDescriptor.GetBytes | token-DLL/lib/hid-libusb.c:153-175 | The data behind a key, little end first, or 0 when it does not fit. |
| HidDescriptor.LittleEndianDigit | token-DLL/lib/hid-libusb.c:153-175 | Each byte of the data is the digit of its place, to the base 256, from the lowest on. |
| HidDescriptor.ReadKey | token-DLL/lib/hid-libusb.c:189-226 | Command, data length and key size of short and long items, also of cut ones, lead to the next item. |
| HidDescriptor.ItemsOfDescriptor | token-DLL/lib/hid-libusb.c:188-245 | Reading a descriptor that was written from whole items gives those items back, for the scan and for the specification. |
| HidDescriptor.LatestIsLast | token-DLL/lib/hid-libusb.c:230-239 | The value reported for a command is that of its last item. |
| AsyncCallPool.AsyncCallData.Call | firebreath/src/ScriptingCore/BrowserHost.cpp:265-273 | The function runs at most once. |
| AsyncCallPool.AsyncCallManager.MakeCallback | firebreath/src/ScriptingCore/BrowserHost.cpp:293-299 | A fresh record with a new identity is listed. |
| AsyncCallPool.AsyncCallManager.Call | firebreath/src/ScriptingCore/BrowserHost.cpp:276-291 | A record is run and deleted if and only if it is still listed. |
| AsyncCallPool.AsyncCallManager.Remove | firebreath/src/ScriptingCore/BrowserHost.cpp:301-305 | The record is withdrawn and nothing is deleted. |
| AsyncCallPool.AsyncCallManager.Shutdown | firebreath/src/ScriptingCore/BrowserHost.cpp:307-316 | Every listed function is run once, and its record is kept for the destructor. |
| AsyncCallPool.AsyncCallManager.Destroy | firebreath/src/ScriptingCore/BrowserHost.cpp:318-321 | Each cancelled record is deleted for the first time. |
| AsyncCallProtocol.RunKeeps | firebreath/src/ScriptingCore/BrowserHost.cpp:265-346 | Every interleaving of callers, firings and shutdown keeps the place and the counts of every record. |
| AsyncCallProtocol.AtMostOnce | firebreath/src/ScriptingCore/BrowserHost.cpp:265-291 | No function runs twice and no record is deleted twice. |
| AsyncCallProtocol.TrueMeansCalled | firebreath/src/ScriptingCore/BrowserHost.cpp:334-346 | After the manager's shutdown, a call that returned true has run once or has been extracted and will run. |
| AsyncCallProtocol.OwnershipPartition | firebreath/src/ScriptingCore/BrowserHost.cpp:276-321 | Every record is in exactly one of five places. |
| AsyncCallProtocol.NoUseAfterFree | firebreath/src/ScriptingCore/BrowserHost.cpp:276-332 | Nobody still has a deleted record to use. |
| AsyncCallProtocol.LateFiringIsHarmless | firebreath/src/ScriptingCore/BrowserHost.cpp:324-332 | A firing after the shutdown does nothing. |
| AsyncCallProtocol.FalseCalledIff | firebreath/src/ScriptingCore/BrowserHost.cpp:307-346 | After false, the function has run if and only if the host copied its list after the call made its record and before it withdrew it. |
| AsyncCallProtocol.FlagSetMeansNeverCalled | firebreath/src/ScriptingCore/BrowserHost.cpp:334-338 | A call that begins with the flag set returns false and its function never runs. |
| AsyncCallProtocol.FalseYetCalled | firebreath/src/NpapiCore/NpapiBrowserHost.cpp:113-129 | A run in which false is returned and the function has run. |
| AsyncCallProgress.HandedOverIffPosted | firebreath/src/ScriptingCore/BrowserHost.cpp:334-346 | In every run, the browser has been given a record if and only if its call posted it while the table of browser functions was not cleared. |
| AsyncCallProgress.AcceptedRuns | firebreath/src/ScriptingCore/BrowserHost.cpp:276-332 | A record that the browser may fire runs when it does: four steps, each taken, and then it has run once and been deleted once, without the shutdown. |
| AsyncCallProgress.CallOnLivingHost | firebreath/src/ScriptingCore/BrowserHost.cpp:293-346 | A call that begins on a living host takes all its steps, returns true, and the browser has its record. |
| AsyncCallProgress.ScheduledCallRuns | firebreath/src/ScriptingCore/BrowserHost.cpp:265-346 | So a call scheduled on a living host returns true and has run once when the browser has fired it. |
| AsyncCallProgress.CallReturns | firebreath/src/ScriptingCore/BrowserHost.cpp:334-346 | Every call that has begun can return by its own steps: true if it is past its last look at the flag or the flag is clear, and otherwise false with its record withdrawn. |
| AsyncCallProgress.ShutdownFinishes | firebreath/src/ScriptingCore/BrowserHost.cpp:307-316 | From every state the host can finish its shutdown by its own steps, and everything that was listed has run once. |
| StreamEvents.EventLanguage | firebreath/src/NpapiCore/NpapiPlugin.cpp:194-409 | The events of a run are Created, then FailedOpen or Opened with data or nothing, then at most two Completed, if and only if no completed seekable request is rejected. |
| StreamEvents.LateRejectionExample | firebreath/src/NpapiCore/NpapiPlugin.cpp:357-367 | FailedOpen after Completed does occur. |
| StreamEvents.DataOnlyWhileOpen | firebreath/src/NpapiCore/NpapiStream.cpp:72-91 | In every run, data follows an Opened and never a Completed. |
| StreamEvents.OrdinaryEnd | firebreath/src/NpapiCore/NpapiPlugin.cpp:234-409 | DestroyStream and then URLNotify give exactly one Completed, with the reason of the first, after all data. |
| StreamEvents.SeekableEnd | firebreath/src/NpapiCore/NpapiStream.cpp:106-124 | A seekable stream is not completed by a success of DestroyStream or URLNotify, and once by the first failure of the two. |
| StreamEvents.RejectedEnd | firebreath/src/NpapiCore/NpapiPlugin.cpp:357-367 | A rejected request sends FailedOpen, no data, and its reason. |
| StreamEvents.RunWrites | firebreath/src/NpapiCore/NpapiPlugin.cpp:194-201 | What a series of writes sends, to a stream that receives and to one that does not. |
| StreamLifetimes.ReleasedIff | firebreath/src/NpapiCore/NpapiStream.cpp:146-165 | The self-reference goes if and only if the stream has been notified, or need not be, and some call detached it while it was attached. |
| StreamLifetimes.WhoNeedsNotification | firebreath/src/NpapiCore/NpapiBrowserHost.cpp:759-773 | A requested stream goes after a notification and a detaching call, an unsolicited one after a detaching call alone. |
| StreamLifetimes.RejectedNeverReleased | firebreath/src/NpapiCore/NpapiStream.cpp:153-165 | No run releases a stream that was rejected. |
| StreamLifetimes.RejectionLeaks | firebreath/src/NpapiCore/NpapiPlugin.cpp:357-367 | Every rejected seekable request holds itself for ever. |
| StreamLifetimes.FailedRequestLeaks | firebreath/src/NpapiCore/NpapiPlugin.cpp:234-242 | So does every request that is never offered a stream, whether or not it fails. |
| StreamLifetimes.CloseAfterShutdownLeaks | firebreath/src/NpapiCore/NpapiStream.cpp:58-70 | So does every stream that is closed after the host's shutdown. |
| NpapiStreams.NpapiStream.Close | firebreath/src/NpapiCore/NpapiStream.cpp:58-70 | Closing, with the browser's re-entrant call, does what the specification of a close says. |
| NpapiStreams.NpapiStream.SignalCompleted | firebreath/src/NpapiCore/NpapiStream.cpp:106-124 | Completion is signalled once, after the close that it brings about. |
| NpapiStreams.NpapiStream.SignalDataArrived | firebreath/src/NpapiCore/NpapiStream.cpp:72-91 | At most a buffer's worth is consumed, and sent only while the stream is open. |
| NpapiStreams.PluginNewStream | firebreath/src/NpapiCore/NpapiPlugin.cpp:312-384 | A handle's stream, or one made for an unsolicited handle that the plugin accepts, is described, attached and opened, or rejected because it cannot seek; which way it is delivered, and which observer an unsolicited one gets; a handle without either is left alone. |
| NpapiStreams.PluginWrite | firebreath/src/NpapiCore/NpapiPlugin.cpp:194-201 | What is delivered, and how much the browser is told was taken. |
| NpapiStreams.PluginDestroyStream | firebreath/src/NpapiCore/NpapiPlugin.cpp:395-409 | The stream is detached before it completes, so the call does not repeat itself. |
| NpapiStreams.PluginURLNotify | firebreath/src/NpapiCore/NpapiPlugin.cpp:234-242 | Completion is signalled and the stream counts as notified. |
| StreamBody.CalledForFirstCompletion | firebreath/src/PluginCore/SimpleStreamHelper.cpp:153-186 | The callback gets the first completion's outcome and what arrived before it. |
| StreamBody.SingleNotification | firebreath/src/PluginCore/SimpleStreamHelper.cpp:153-186 | Over any events, the callback is called once if there is a completion, and not otherwise. |
| StreamBody.CalledIffFirstHasStream | firebreath/src/PluginCore/SimpleStreamHelper.cpp:153-186 | With completions that may lack their stream, the callback is called if and only if the first has it or is a failure, and at most once. |
| StreamBody.FeedDelivers | firebreath/src/NpapiCore/NpapiStream.cpp:72-91 | Whatever the offers, what arrives is the next stretch of the body in contiguous pieces. |
| StreamBody.FeedProgresses | firebreath/src/NpapiCore/NpapiPlugin.cpp:194-201 | Offering again what was not consumed comes to an end. |
| StreamBody.FeedEndIs | firebreath/src/NpapiCore/NpapiStream.cpp:72-91 | The offers get exactly as far into the body as they have room, with at most a buffer's worth of each. |
| StreamBody.FedPartArrives | firebreath/src/PluginCore/SimpleStreamHelper.cpp:153-223 | End to end, for any buffer size and any fragmentation: one call; on success with the parsed headers, exactly the bytes of the body that the offers got to, and their number; on failure with neither, and the number. |
| StreamBody.BodyArrives | firebreath/src/PluginCore/SimpleStreamHelper.cpp:153-223 | After an ordinary end the callback has been called once, with success and a prefix of the body, which is the whole body if and only if the offers have room for it. |
| StreamOutcomes.SuccessIff | firebreath/src/NpapiCore/NpapiStream.cpp:58-124 | The first completion of an active stream is a success if and only if the first ending call is a close, a URLNotify, or a DestroyStream after everything has been sent to a stream that cannot seek. |
| StreamOutcomes.CallbackSuccessIff | firebreath/src/PluginCore/SimpleStreamHelper.cpp:153-186 | The callback is told success under exactly that condition. |
| StreamOutcomes.EndsOfActive | firebreath/src/NpapiCore/NpapiStream.cpp:58-124 | What a close, a DestroyStream and a URLNotify each send on an active stream, before and after the host's shutdown, seekable or not. |
| StreamOutcomes.EarlyEndReportsSuccess | firebreath/src/NpapiCore/NpapiStream.cpp:58-124 | An early close, and a failure notified on an open stream, give the callback success and the part that had arrived. |
| StreamHelpers.SimpleStreamHelper.OnStreamDataArrived | firebreath/src/PluginCore/SimpleStreamHelper.cpp:194-223 | Data at any position is counted, and its positions and lengths determine the number of blocks; as long as it continues the body, the blocks hold what was received, and their number is the length divided by the block size, rounded up. |
| StreamHelpers.SimpleStreamHelper.Join | firebreath/src/PluginCore/SimpleStreamHelper.cpp:162-175 | The joined buffer has the received length and, without gaps, the received bytes. |
| StreamHelpers.JoinInBoundsIff | firebreath/src/PluginCore/SimpleStreamHelper.cpp:162-175 | Joining copies inside the buffer for the received bytes if and only if the last block does not begin beyond the received length. |
| StreamHelpers.GapOverrunsBuffer | firebreath/src/PluginCore/SimpleStreamHelper.cpp:162-210 | Two pieces of one length, at the beginning of two blocks: joining them stays inside the buffer if and only if they fill half of the blocks. |
| StreamHelpers.SimpleStreamHelper.OnStreamCompleted | firebreath/src/PluginCore/SimpleStreamHelper.cpp:153-186 | The callback is called with the parsed headers and the joined bytes, which without gaps are the received ones, or with a failure, and let go of; without its stream a success calls nothing; the blocks are freed. |
| StreamHelpers.HandleEvents | firebreath/src/PluginCore/SimpleStreamHelper.cpp:153-223 | Over any events in which data continues the body and precedes the completions, the blocks do what the observer as a value does. |
| StreamHelpers.ReceiveBody | firebreath/src/PluginCore/SimpleStreamHelper.cpp:153-223 | End to end with the blocks, of any size: the callback is called once, with the part of the body that the offers got to. |
| HttpHeaders.ParseHttpHeaders | firebreath/src/PluginCore/SimpleStreamHelper.cpp:225-242 | The loop over the lines gives the entries of the lines in order. |
| HttpHeaders.EntryOfLine | firebreath/src/PluginCore/SimpleStreamHelper.cpp:231-239 | For every line with a colon: the trimmed text before the first one, and the trimmed text behind it. |
| HttpHeaders.ParsePrinted | firebreath/src/PluginCore/SimpleStreamHelper.cpp:225-242 | Parsing printed lines gives the headers back, with any runs of CR and LF and any lines without a colon in between. |
| HttpHeaders.RoundTrip | firebreath/src/PluginCore/SimpleStreamHelper.cpp:225-242 | "name: value" lines give their pairs back. |
| HttpHeaders.TrimMeans | firebreath/src/PluginCore/SimpleStreamHelper.cpp:231-239 | Trimming removes white space from both ends and nothing else. |
| EventDelivery.ObserversConserved | firebreath/src/PluginCore/PluginEventSource.cpp:37-74 | Between outermost calls, Attached less Detached is the number of times a living sink is listed, and the manager has the stream exactly while it observes it. |
| EventDelivery.PerformKeeps | firebreath/src/PluginCore/PluginEventSource.cpp:37-94 | The same balance, with Detached events still owed, is kept by whatever a handler does. |
| EventDelivery.KeptInOrder | firebreath/src/PluginCore/PluginEventSource.cpp:54-67 | Detaching keeps the living others, in order, and no others. |
| EventDelivery.SnapshotDelivery | firebreath/src/PluginCore/PluginEventSource.cpp:76-94 | SendEvent gives each sink of the list as it was on entry its turn, in order, until the first that answers true, whatever handlers do: a sink that lives at its turn is called once at this depth, and for one that does not nothing happens. |
| EventDelivery.HandleDeliversOnce | firebreath/src/PluginCore/PluginEventSource.cpp:86-92 | A call of a handler is one delivery at its depth; all that it causes is deeper. |
| EventDelivery.ManagerLeaves | firebreath/src/PluginCore/BrowserStreamManager.cpp:50-61 | Releasing a stream takes the manager out of the list and the stream out of the set. |
| EventDelivery.CompletedReleases | firebreath/src/PluginCore/BrowserStreamManager.cpp:57-61 | Completed makes the manager let go, whatever the observers behind it answer, unless one in front of it answers true, where the event ends, or the stream is retained again. |
| ObserverCalls.HandlerAnswers | firebreath/src/PluginCore/PluginEventSource.cpp:86-92 | A handler gets the event at its caller's depth, and its answer is the one that is returned; the manager's is false. |
| ObserverCalls.HandlerAttaches | firebreath/src/PluginCore/PluginEventSource.cpp:37-43 | A sink that a handler attaches is called within, one deeper, and is in the list when the handler is done. |
| ObserverCalls.ActionsAct | firebreath/src/PluginCore/PluginEventSource.cpp:37-94 | What attaching, detaching, sending and expiring from within a handler come to when no other handler acts. |
| ObserverCalls.ManagerComes | firebreath/src/PluginCore/BrowserStreamManager.cpp:43-48 | Retaining puts the manager behind the other observers and the stream into its set. |
| ObserverCalls.ManagerGoes | firebreath/src/PluginCore/BrowserStreamManager.cpp:50-55 | Releasing takes the manager, and nobody else who lives, out of the list, and the stream out of its set. |
| ObserverCalls.AttachedGoesLast | firebreath/src/PluginCore/PluginEventSource.cpp:37-43 | An attached sink is the last in the list, and is told once and at once. |
| ObserverCalls.DetachedIsTold | firebreath/src/PluginCore/PluginEventSource.cpp:50-74 | A detached sink is not in the list any more, and is told once for every time that it was. |
| ObserverCalls.LastIsCalledLast | firebreath/src/PluginCore/PluginEventSource.cpp:76-94 | A sink that was attached last is called last, if nobody in front answers true and it still lives then. |
| ObserverCalls.ExpiredIsNeverCalled | firebreath/src/PluginCore/PluginEventSource.cpp:54-94 | A sink that has expired is never called again, whatever is called and whatever handlers do. |
| EventSources.PluginEventSource.AttachObserver | firebreath/src/PluginCore/PluginEventSource.cpp:37-43 | The call on the list does what the specification of an attachment says, with everything its handler does. |
| EventSources.PluginEventSource.DetachObserver | firebreath/src/PluginCore/PluginEventSource.cpp:50-74 | The two loops do what the specification of a detachment says. |
| EventSources.PluginEventSource.Erase | firebreath/src/PluginCore/PluginEventSource.cpp:55-67 | Erasing while iterating leaves the living others and counts the references erased. |
| EventSources.PluginEventSource.SendEvent | firebreath/src/PluginCore/PluginEventSource.cpp:76-94 | The loop over the copy sends to the list as it was on entry. |
| EventSources.PluginEventSource.Retain | firebreath/src/PluginCore/BrowserStreamManager.cpp:43-48 | The manager attaches itself and has the stream. |
| EventSources.PluginEventSource.OnStreamCompleted | firebreath/src/PluginCore/BrowserStreamManager.cpp:50-61 | The manager detaches itself and lets the stream go. |
| ReferenceCounts.ReferencesConserved | firebreath/src/NpapiCore/NpapiBrowserHost.cpp:180-208 | After any run, each count is outside references, wrappers, queue and losses, and an object is allocated if and only if one of them has it; no losses while the host lives. |
| ReferenceCounts.RunConserves | firebreath/src/NPAPIHost/NpResourceHostFuncs.cpp:46-76 | Every run keeps the counts conserved. |
| ReferenceCounts.DrainLeavesTheReferenced | firebreath/src/NpapiCore/NpapiBrowserHost.cpp:192-208 | A drain gives back exactly the queue's share and expires exactly the dead cache entries. |
| ReferenceCounts.NothingLeft | firebreath/src/NpapiCore/NpapiBrowserHost.cpp:192-208 | When all callers and wrappers have let go, a drain leaves nothing allocated. |
| ReferenceCounts.LostIsNeverReleased | firebreath/src/NpapiCore/NPObjectAPI.cpp:44-50 | The reference of a wrapper that outlives its host is never released. |
| ReferenceCounts.SameWrapper | firebreath/src/NpapiCore/NpapiBrowserHost.cpp:775-802 | As long as the wrapper and the host live, the same API gets the same wrapper, for the same API as before, with one reference for each call. |
| ReferenceCounts.WrapperIsForApiIff | firebreath/src/NpapiCore/NpapiBrowserHost.cpp:784-801 | After any run, the wrapper handed out stands for the API asked for if and only if no API born earlier at its address was given a wrapper that still lives. |
| ReferenceCounts.CachedWasGiven | firebreath/src/NpapiCore/NpapiBrowserHost.cpp:784-801 | Every cached wrapper was given, by a call of the run, to the API that it stands for. |
| ReferenceCounts.GivenStaysCached | firebreath/src/NpapiCore/NpapiBrowserHost.cpp:784-801 | A wrapper that was given to a living API stays the cached one of its address while it and the host live. |
| ReferenceCounts.WrapperOfADeadApi | firebreath/src/NpapiCore/NpapiBrowserHost.cpp:784-791 | A run in which it is for another API. |
| WrapperRetention.RetainedOncePerWrapper | firebreath/src/ScriptingCore/BrowserHost.cpp:247-262 | Up to the shutdown the host's list has each API exactly as often as an auto-release wrapper of it lives, and those stand for APIs that live. |
| WrapperRetention.AutoWrapperIsForApi | firebreath/src/NpapiCore/NPJavascriptObject.cpp:23-62 | Up to the shutdown an auto-release wrapper is never handed out for another API than its own. |
| WrapperRetention.MadeAsAsked | firebreath/src/NpapiCore/NPJavascriptObject.cpp:23-41 | For a living API without a cached wrapper, one is made with one reference, auto-release exactly when asked for, and the API is then kept alive once more. |
| WrapperRetention.MadeForDeadApi | firebreath/src/NpapiCore/NpapiBrowserHost.cpp:780-782 | For an API that is gone the wrapper is never an auto-release one, nothing is kept alive, and it is not cached. |
| WrapperRetention.AutoWrapperKeepsApiAlive | firebreath/src/NpapiCore/NPJavascriptObject.cpp:23-62 | Up to the shutdown, as long as an auto-release wrapper is allocated, its API lives and cannot die, whatever is done. |
| WrapperRetention.LastReleaseDrains | firebreath/src/ScriptingCore/BrowserHost.cpp:253-262 | The last reference of an auto-release wrapper of a living API takes the API from the list and works off the queue. |
| WrapperRetention.OtherReleasesOnlyCount | firebreath/src/NpapiCore/NPJavascriptObject.cpp:55-62 | Every other release counts down, deallocates with the last reference, and does nothing else. |
| WrapperRetention.DestructionQueues | firebreath/src/NpapiCore/NpapiBrowserHost.cpp:180-186 | A wrapper destroyed on the main thread leaves nothing in the queue, one destroyed elsewhere leaves its reference there. |
| WrapperRetention.ShutdownLetsGo | firebreath/src/ScriptingCore/BrowserHost.cpp:236-245 | The shutdown empties the list and the queue; then every API can die. |
| ReferenceCounts.CreateConserves | firebreath/src/NPAPIHost/NpResourceHostFuncs.cpp:46-57 | A new object's one reference is its creator's: the counts stay conserved. |
| ReferenceCounts.RetainConserves | firebreath/src/NPAPIHost/NpResourceHostFuncs.cpp:60-64 | Retaining adds one reference, for a holder outside or for a wrapper: the counts stay conserved. |
| WrapperRetention.OperationsAdd | firebreath/src/NPAPIHost/NpResourceHostFuncs.cpp:46-64 | Creating, retaining and wrapping each add exactly one reference, and to whom. |
| WrapperRetention.OperationsEnd | firebreath/src/NpapiCore/NpapiBrowserHost.cpp:192-208 | A drain leaves the counts of callers and wrappers and an empty queue. |
| NpapiHosts.NpapiBrowserHost.ReleaseObject | firebreath/src/NPAPIHost/NpResourceHostFuncs.cpp:67-76 | One reference less, deallocated with the last, with the drain that an auto-release wrapper brings about; NULL does nothing. |
| NpapiHosts.NpapiBrowserHost.Deallocated | firebreath/src/NpapiCore/NPJavascriptObject.cpp:55-62 | The host lets go of the wrapper's API, if that lives, and works off its queue. |
| NpapiHosts.NpapiBrowserHost.DoDeferredRelease | firebreath/src/NpapiCore/NpapiBrowserHost.cpp:192-208 | The loop releases each queued reference and expires the cache, whatever drains it brings about from within. |
| NpapiHosts.NpapiBrowserHost.DropExpired | firebreath/src/NpapiCore/NpapiBrowserHost.cpp:199-207 | Exactly the entries whose object has gone are erased. |
| NpapiHosts.NpapiBrowserHost.DeferredRelease | firebreath/src/NpapiCore/NpapiBrowserHost.cpp:180-186 | The reference is queued, and the queue worked off at once on the main thread only. |
| NpapiHosts.NpapiBrowserHost.GetJSAPIWrapper | firebreath/src/NpapiCore/NpapiBrowserHost.cpp:775-802 | Cached, expired, missing and dead APIs each get what the specification says, with retention for auto-release wrappers; the counts stay conserved. |
| NpapiHosts.NpapiBrowserHost.FreeRetainedObjects | firebreath/src/ScriptingCore/BrowserHost.cpp:236-245 | The list is emptied and the queue worked off; the counts stay conserved. |
| NpapiHosts.NPObjectAPI.constructor | firebreath/src/NpapiCore/NPObjectAPI.cpp:28-42 | A wrapper retains its object, or has none. |
| NpapiHosts.NPObjectAPI.Destroy | firebreath/src/NpapiCore/NPObjectAPI.cpp:44-50 | Its reference goes into the queue, or is lost when the host has gone. |
| PacketScrambler.KeyIndexInSerial | token-DLL/lib/novintools.c:33-195 | Every index that is computed from the table is one of the four bytes of the serial. |
| PacketScrambler.KeyMasks | token-DLL/lib/novintools.c:124-230 | What the arithmetic on the table comes to: the complement of one named byte of the serial for each of the twelve groups, and the four header masks. |
| PacketScrambler.XorBit | token-DLL/lib/novintools.c:128-132 | A bit of an exclusive or is set if and only if it is set in exactly one of the two. |
| PacketScrambler.UnscrambleScramble | token-DLL/lib/novintools.c:124-200 | The token recovers every payload, for every serial. |
| PacketScrambler.ScrambleUnscramble | token-DLL/lib/novintools.c:124-200 | Every buffer is a scrambled one: the scrambler is a bijection. |
| PacketScrambler.DecryptReply | token-DLL/lib/novintools.c:202-249 | The decryption recovers every reply that is scrambled with the reply's header masks. |
| PacketScrambler.ScrambleTruncates | token-DLL/lib/novintools.c:36-200 | Scrambling commutes with cutting at a whole number of groups. |
| PacketScrambler.ReportLengthsAreGrouped | token-DLL/lib/novintools.c:35-36 | Every report length is such a cut. |
| PacketScrambler.DecryptAfterEncrypt | token-DLL/lib/novintools.c:124-249 | Decrypting what was encrypted restores all groups and leaves bytes 0 and 1 masked by exactly s0^s3 and s0^s3^0xFF. |
| PacketScrambler.EncryptPacket | token-DLL/lib/novintools.c:124-200 | The loop in place computes the scrambling, byte by byte as named by the serial, and touches nothing else. |
| PacketScrambler.DecryptPacket | token-DLL/lib/novintools.c:202-249 | The loop in place undoes the groups from their ends, byte by byte as named by the serial, and touches nothing else. |
| KeyTransfer.RequestRecovered | token-DLL/lib/novintools.c:364-370 | From the 27 bytes sent, the token recovers opcode, password, key type and index, whatever the packet held before. |
| KeyTransfer.KeyRequestsAreRecovered | token-DLL/lib/novintools.c:354-389 | All requests of a transfer are recovered in order, though one buffer is scrambled for all of them; how many there are. |
| KeyTransfer.KeyTransferIsExact | token-DLL/lib/novintools.c:319-389 | For all replies, short ones included: success if and only if all sixteen exchanges deliver, with the chunks in index order; otherwise the first failure's positive code and no exponent. |
| KeyTransfer.WholeTransfer | token-DLL/lib/novintools.c:319-389 | Over whole replies the answer is the same for every content of the scratch buffer. |
| KeyDelivery.TransferDelivers | token-DLL/lib/novintools.c:319-389 | Sixteen whole replies whose decrypted status is 0 or 128: success, and the key and the exponent are their chunks, byte by byte. |
| KeyDelivery.TransferFails | token-DLL/lib/novintools.c:254-389 | The first exchange that fails decides: 1 without a device, 132 without selection, 3 for a failing transfer, else the status; no exponent, and a key only if it was complete. |
| KeyDelivery.RequestBytes | token-DLL/lib/novintools.c:364-370 | The bytes of a request: report id 3, opcode 0x38, password, kind 1, 2 or 3, and index, scrambled behind the id. |
| KeyTransfer.ReplyRecovered | token-DLL/lib/novintools.c:282-308 | From a whole reply, the caller gets the chunk that the token put into it if its status is 128 or 0, and the status as an error otherwise. |
| KeyTransfer.FetchLands | token-DLL/lib/novintools.c:325-346 | The chunks land one behind the other although each move leaves two stale bytes. |
| KeyTransfer.MovedTail | token-DLL/lib/novintools.c:308-308 | The move leaves two bytes twice, and every byte behind the chunk as it was. |
| KeyTransfer.ChunkDeterminedIffWhole | token-DLL/lib/novintools.c:282-308 | What a reply leaves as its chunk is determined by the reply if and only if it has all 18 bytes. |
| KeyTransfer.StatusDeterminedIff | token-DLL/lib/novintools.c:282-308 | The status is determined by the reply if and only if it has two bytes. |
| KeyTransfer.ShortReplyAccepted | token-DLL/lib/novintools.c:282-308 | A reply of any length is judged by its status byte, or an old one, and its chunk is taken. |
| KeyTransfer.InBoundsIff | token-DLL/lib/novintools.c:282-334 | Every place that receiving and moving down the eight replies of a fetch writes or reads is inside the scratch buffer if and only if that has at least 132 bytes. |
| TokenPorts.TokenPort.SendPacket | token-DLL/lib/novintools.c:254-317 | The exchange in place, with each of its errors in the order of the code. |
| TokenPorts.TokenPort.ReceiveReply | token-DLL/lib/novintools.c:282-308 | The reply is decrypted and moved down over its own header. |
| TokenPorts.TokenPort.FetchChunks | token-DLL/lib/novintools.c:325-340 | Eight chunks, or the first error. |
| TokenPorts.TokenPort.GetPublicKey | token-DLL/lib/novintools.c:319-352 | The caller gets both keys exactly, or the first error with the rest untouched, and the token recovers every request. |
| TokenPorts.TokenPort.GetPrivateKey | token-DLL/lib/novintools.c:354-389 | The same, and the token recovers every request with the password. |
| HexCodec.DecodeEncode | fumPlugin/fumPluginAPI.cpp:348-401 | Decoding an encoding gives the bytes back. |
| HexCodec.EncodeDecode | fumPlugin/fumPluginAPI.cpp:348-401 | Encoding a decoding gives the lower-cased text, without an odd last digit. |
| HexCodec.DigitsAre | fumPlugin/fumPluginAPI.cpp:348-401 | The digits are the sixteen characters, in either case, in the order of their values; encoding uses lower case. |
| HexCodec.Bin2Hex | fumPlugin/fumPluginAPI.cpp:348-363 | The loop writes the encoding and nothing else. |
| HexCodec.Hex2Bin | fumPlugin/fumPluginAPI.cpp:365-401 | Each byte with two digits is converted, and all of a text of digits. |
| HexCodec.SerialFromText | token-DLL/lib/novintools.c:40-77 | The serial reader agrees with the plugin's converter on the first eight digits, and byte by byte as far as there are digits. |

## Left out

- HidLibusb.HidDevice.ReadTimeout: does not model the computation of the deadline and the cleanup handlers of thread cancellation; a timed wait ends by a signal, a timeout or an error at any moment.
- HidLibusb.HidDevice: malloc failures, and every use of a device after `hid_close` has freed it.
- ReadThread.ReachableIsSafe: does not model weak memory orders; the unlocked shutdown flag is read and written in program order.
- ReadThread.RunKeeps: has the transfer callback run by the read thread alone; the context of libusb is shared, so a synchronous control transfer of another thread could run it there.
- ShutdownWakeups.StaysAsleep: condition variables may wake a sleeper without a cause; such a wake-up is a step of its own, and nothing is promised beyond it.
- HidDescriptor.GetUsage: does not model the wrap-around of the 32-bit position for descriptors near 4 GB.
- AsyncCallProtocol.TrueMeansCalled: is about functions that are not NULL, and about callbacks that do not schedule or fire calls from within the shutdown.
- NpapiStreams.NpapiStream.Close: models a host whose table of browser functions has been cleared, but not one that has been destroyed; the code then uses a lock of its weak reference without looking at it.
- NpapiStreams.NpapiStream.SignalDataArrived: does not model 32-bit offsets and lengths, which wrap for bodies over 2 GB; nor does the stream helper.
- NpapiStreams.PluginNewStream: does not model the date of last modification, which only the plugin's handler of unsolicited streams sees.
- `readRanges`, `StreamAsFile`, the file name of a cached stream, and delivery of seekable ranges: easy, or assumed contiguous here.
- StreamHelpers.SimpleStreamHelper.OnStreamCompleted: demands that the blocks can be joined inside the buffer for the received bytes (`StreamHelpers.JoinInBoundsIff`), which data without gaps always can; otherwise the code writes beyond it. After data with gaps it says nothing of the bytes of the body.
- HttpHeaders.ParseHttpHeaders: models white space in the classic locale, and the multimap as the sequence of its insertions.
- EventSources.PluginEventSource: the recursive mutex, as nested calls of one thread; other threads wait until the outermost call ends. The manager's destructor, which closes its streams, is not part of it.
- ReferenceCounts.ReferencesConserved: takes the queue of deferred releases for a first-in-first-out queue and a release on another thread for one step.
- WrapperRetention.RetainedOncePerWrapper: says nothing of the time after the shutdown, when the list is empty while auto-release wrappers may live.
- TokenPorts.TokenPort.SendPacket: takes the active token for given and models replies of the 18-byte report, the only kind that any caller asks for; the scratch buffer has at least 132 bytes, where the code allocates 128 (`KeyTransfer.InBoundsIff`).
- TokenPorts.TokenPort.GetPublicKey: the requests carry whatever the packet buffer holds in place of a password, so nothing is said of those bytes.
- HexCodec.Hex2Bin: says nothing of bytes whose characters are no digits, which the code takes from uninitialised memory.
- HexCodec.SerialFromText: demands at most 15 characters, which fit the local buffer, and models characters of one byte.
- libusb, pthread, OpenSSL, COM and the tables of NPAPI functions: foreign code, present only as steps of the surroundings.
- ActiveX, RSA, PEM and signatures, device enumeration, logging, proxies, timers, the DOM, variants, example plugins and generators: input and output, wrappers or easy members.
