# Models of a MediaTek Wi-Fi HAL, emergency-number list, data-call slots and P2P channel switching

Dafny models of the stateful parts of this device tree, with proofs. `dafny verify dfyconfig.toml`
checks all of them.

| files | what they model |
|---|---|
| Handlers.dfy, Commands.dfy | the two bounded arrays of the Wi-Fi HAL (event handlers, outstanding commands), edited in place, seen as FIFO queues per key and as an ordered list |
| Lifetime.dfy, LifetimeSteps.dfy, LifetimeRuns.dfy, LifetimeStarts.dfy, LifetimeCancels.dfy, Runs.dfy | commands shared by starting and cancelling threads and the event dispatcher, as an interleaving step system with reference counts and cb_lock |
| Teardown.dfy | wifi_cleanup against the event loop |
| Netlink.dfy, Requests.dfy, ScanRequest.dfy | attribute messages: iterator, builder with back-patched nests, and the scan configuration request |
| ScanResults.dfy, ScanReplies.dfy | retrieval of cached scans over several request rounds |
| RttResults.dfy, RttReplies.dfy | gathering, delivering and freeing RTT results across events |
| Strings.dfy, EccList.dfy, EccAnswers.dfy | the emergency-number list and its system properties |
| DataCalls.dfy | the four data-call slots |
| SharedFreqs.dfy, P2pChannels.dfy | shared-radio frequencies, and SCC/MCC channel switching |
| Prelude.dfy | C integer ranges, Option, memmove |

## What the proofs assume of the environment

- Lifetime. Three rules on callers, written out in `Lifetime.Disciplined`: (1) a new command's request
  id belongs to no command that can still be reached; (2) a command is cancelled only after its start
  call returned; (3) a handler is removed on behalf of a command only when that command is not waiting
  behind another under the same key. Each command-table operation is one step (the table has no
  mutex); each handler-table edit is a critical section under cb_lock. The command classes are those
  whose cancel() removes all their events: Scan, FullScan, Hotlist, ePNO, SignificantChange, Anqpo,
  RSSI monitor and RTT.
- Teardown. One wifi_cleanup call; entering the loop is one step; the handle is not used for a new loop
  once a thread has decided to free it; a read of the freed handle still sees its last value. Every
  other access to in_event_loop, clean_up and the exit socket is a step of its own.
- Attributes. 4-byte little-endian header, length including the header, 4-byte alignment, signed
  remaining count. Memory does not change while it is walked, and the outermost declared length fits
  it. A fixed-width read may run up to 4 bytes past a declared length, so that much memory is assumed
  to follow.
- Scan retrieval. The array has at least max slots. MAX_AP_CACHE_PER_SCAN and the two record sizes are
  parameters; a driver record is not larger than a HAL record.
- RTT. The event carries a vendor-data attribute. `RttCommand` handles events that stay inside its
  array; `FitsIff` says exactly which do. Whether the n-th allocation succeeds is an arbitrary function.
- Emergency numbers. Customized codes are non-empty and hold no comma. Number parsing and separator
  stripping are arbitrary functions.
- Data calls. One set-up is outstanding at a time and no call is deactivated meanwhile
  (`LandsWhereAnnouncedIff` says what happens otherwise).

## Where the code differs from its comments or intent

- Removing a command moves one entry more than needed (common.cpp:187 and common.cpp:224). With a full
  table that reads one entry past the allocation; `CommandTable` gives the array one foreign cell for
  it, and `LongShiftAgrees` says exactly when the move stays inside.
- wifi_internal_cleanup can run twice, in two ways (`FreedTwiceExample`, `SocketClosedExample`);
  `CleanedExactlyOnceIff` gives the exact condition.
- The results capacity check divides by the HAL's record size although the payload holds driver
  records (`NothingCutIff`).
- The RTT array is written before the allocation is checked and without a bound check (rtt.cpp:552);
  `OverflowExample` writes past it.
- A call the network drops stays in its data-call slot, and its id can then be stored twice
  (`StoredTwiceExample`).
- p2p_wfd_sink_config_scc ignores the -1 of priv_p2p_freq_to_channel and then uses two uninitialised
  locals (`SccUnrecognisedIff`).
- Bucket nests carry their index as attribute type, which collides with two real attribute types from
  11 buckets on (`BucketTypesCollideIff`); the round trip is therefore stated by position.

## Model

| member | source | states |
|---|---|---|
| `LifetimeRuns.EveryRunIsSafe` | libpanelli/libwifi-hal-mt66xx/wifi_hal.cpp:532-563 | In every interleaving of starts, cancels, dispatches and RTT completions by callers that keep the three rules of `Lifetime.Disciplined`: every handler entry, table entry and running thread points at a command that has not been deleted (up to and including the condition signal after a callback); mRefs is the owner reference plus the dispatches in flight and "delete this" happens exactly when that reaches zero, at most once; the owner reference is in one place only; no callback runs with cb_lock held and the holder of cb_lock can always go on |
| `LifetimeRuns.SingleHandlerRunIsSafe` | libpanelli/libwifi-hal-mt66xx/common.cpp:53-102 | The same, with the third rule replaced by what the TODO in the source asks for: a key is registered only while it has no handler; then at most one handler per key exists at any time |
| `LifetimeRuns.CoreNeverStuck` | libpanelli/libwifi-hal-mt66xx/wifi_hal.cpp:532-563 | From every reachable state the thread holding cb_lock has an enabled next step, and it is never about to use a command |
| `LifetimeRuns.UndisturbedCancelSafeIff` | libpanelli/libwifi-hal-mt66xx/common.cpp:232-245 | Exactness of two rules: from any reachable state with the lock free and no dispatch of the command in flight, a cancel left undisturbed can finish, and every such run of it ends in a safe state if and only if the command's start has returned and the command is first in the queue of each of its events |
| `LifetimeRuns.DrainLeavesIff` | libpanelli/libwifi-hal-mt66xx/common.cpp:130-151 | Removal is by key: after the removals of a cancel, an entry of the command is left under a key exactly when it was there and either that key is not removed or another command's entry stood before it |
| `LifetimeRuns.QueuedBehindExample` | libpanelli/libwifi-hal-mt66xx/wifi_hal.cpp:1152-1160 | A disciplined run, RSSI monitoring requested twice, to a state in which the second request is in the table, idle, and queued behind the first |
| `LifetimeRuns.QueuedCancelIsUnsafe` | libpanelli/libwifi-hal-mt66xx/wifi_hal.cpp:1152-1178 | Continuing that run by cancelling the second request, undisturbed, ends in an unsafe state |
| `LifetimeRuns.ReusedIdExample` | libpanelli/libwifi-hal-mt66xx/rtt.cpp:610-621 | Dropping the request-id rule breaks safety: a concrete run in which a completing measurement, already cancelled, hands back and frees a new command registered under the same id |
| `LifetimeRuns.CompletionTakesById` | libpanelli/libwifi-hal-mt66xx/rtt.cpp:617-620 | A completing RTT callback removes from the table, and releases the owner reference of, whatever command the table holds under its id, its own or another |
| `LifetimeRuns.EveryLooseRunIsSafe` | libpanelli/libwifi-hal-mt66xx/rtt.cpp:610-621 | Without the request-id rule: as long as no completion takes another command's table entry, every state of every run is as safe as with distinct ids |
| `LifetimeRuns.CompletionSafeIff` | libpanelli/libwifi-hal-mt66xx/rtt.cpp:617-621 | Exactness of the request-id rule: in any state such runs reach, with a callback about to take its command out of the table, the undisturbed rest of it can finish, and every such run ends in a safe state if and only if the table holds nothing under the id, the callback's own command, a command that is itself being dispatched, or one with no handler entry and no running start |
| `LifetimeRuns.OnlyRunUnique` | libpanelli/libwifi-hal-mt66xx/wifi_hal.cpp:552-559 | A thread left alone has exactly one way to finish what it is doing |
| `LifetimeSteps.StepKeepsInv` | libpanelli/libwifi-hal-mt66xx/cpp_bindings.cpp:692-705 | Any one step that keeps the rules preserves the invariant `Lifetime.Inv`: reference accounting, single ownership, every entry owned, ids distinct, cb_lock discipline, and for every thread that what it still has to do covers what it must clean up |
| `LifetimeSteps.StepKeepsCore` | libpanelli/libwifi-hal-mt66xx/cpp_bindings.cpp:692-705 | The same without distinct ids, for steps in which no completion takes another command |
| `LifetimeSteps.StartCallKeepsInv` | libpanelli/libwifi-hal-mt66xx/gscan.cpp:677-694 | A new command, wifi_register_cmd (table full or not) and the choice of any course of start() preserve the invariant when the id is not in use |
| `LifetimeSteps.CancelCallKeepsInv` | libpanelli/libwifi-hal-mt66xx/common.cpp:232-245 | wifi_cancel_cmd's table removal hands the owner reference to the canceller and preserves the invariant, for an unknown id too |
| `LifetimeSteps.BlanketCancelKeepsInv` | libpanelli/libwifi-hal-mt66xx/gscan.cpp:696-713 | Stopping with id -1, or a range cancel, which runs cancel() of a command made for the purpose, preserves the invariant without any rule |
| `LifetimeSteps.TakeKeepsInv` | libpanelli/libwifi-hal-mt66xx/rtt.cpp:617-620 | The self-completion's wifi_unregister_cmd preserves the invariant, whether or not a canceller was first |
| `LifetimeSteps.ReleaseTakenKeepsInv` | libpanelli/libwifi-hal-mt66xx/cpp_bindings.h:252-259 | Releasing the reference a completion took, while its own dispatch is still in flight, preserves the invariant |
| `LifetimeSteps.FinishKeepsInv` | libpanelli/libwifi-hal-mt66xx/cpp_bindings.h:252-259 | The closing releaseRef of a canceller or of the dispatcher, with the deletion when it is the last, preserves the invariant |
| `LifetimeSteps.SearchKeepsInv` | libpanelli/libwifi-hal-mt66xx/wifi_hal.cpp:534-552 | The dispatcher's search and addRef under cb_lock, hit or miss, preserve the invariant |
| `LifetimeSteps.RegisterKeepsInv` | libpanelli/libwifi-hal-mt66xx/common.cpp:78-102 | Appending a handler, or failing to because the array is full, preserves the invariant |
| `LifetimeSteps.UnregisterKeepsInv` | libpanelli/libwifi-hal-mt66xx/common.cpp:130-151 | Removing the first match of a key preserves the invariant under rule (3) |
| `LifetimeSteps.DropKeepsInv` | libpanelli/libwifi-hal-mt66xx/gscan.cpp:689-692 | Dropping the table entry after a failed start, without releaseRef, preserves the invariant |
| `LifetimeSteps.RemoveTakesOwnIff` | libpanelli/libwifi-hal-mt66xx/common.cpp:136-148 | Removal by key takes the given command's entry exactly when that entry is the first of its key |
| `LifetimeSteps.StartPathShape` | libpanelli/libwifi-hal-mt66xx/gscan.cpp:570-620 | Every course of start() of each class registers each of its events at most once and only events of its class |
| `LifetimeSteps.CancelPathShape` | libpanelli/libwifi-hal-mt66xx/gscan.cpp:622-640 | cancel() of each class removes every event of the class on every path and registers none |
| `LifetimeSteps.DispatchPathShape` | libpanelli/libwifi-hal-mt66xx/wifi_hal.cpp:552-559 | Every course of a dispatch releases cb_lock first, then uses the command, and uses it last of all, to signal its condition; only an RTT command removes itself, on some course, and then its handler before its table entry |
| `LifetimeStarts.SuccessRegistersAll` | libpanelli/libwifi-hal-mt66xx/gscan.cpp:570-620 | A start that succeeds registers every event of its class and removes none |
| `LifetimeStarts.SuccessPath` | libpanelli/libwifi-hal-mt66xx/gscan.cpp:570-620 | Each class has a course of start() that succeeds |
| `LifetimeStarts.EveryStartRun` | libpanelli/libwifi-hal-mt66xx/gscan.cpp:677-694 | A start left undisturbed can return, and every such run leaves the same two tables, those its course makes of them act by act |
| `LifetimeStarts.SuccessfulStartListens` | libpanelli/libwifi-hal-mt66xx/gscan.cpp:607-609 | After every undisturbed successful start with room in both tables: the command stands at the end of the command table under its id and, for every event of its class, once at the end of that event's queue |
| `LifetimeStarts.DispatchReachesFront` | libpanelli/libwifi-hal-mt66xx/wifi_hal.cpp:532-563 | An event goes to the command at the front of its queue, which gains a reference while the tables stay as they are; with an empty queue nothing happens |
| `LifetimeStarts.StartedIsReached` | libpanelli/libwifi-hal-mt66xx/wifi_hal.cpp:532-563 | So after a successful start every event of the class that had no handler before is dispatched to the new command |
| `LifetimeStarts.FailedStartLeavesNothing` | libpanelli/libwifi-hal-mt66xx/gscan.cpp:613-618 | After every undisturbed failed start that reaches its clean-up, with no other command listening to the class's events and none registered under the id, both tables are as they were before |
| `LifetimeCancels.EveryCancelRun` | libpanelli/libwifi-hal-mt66xx/common.cpp:232-245 | A wifi_cancel_cmd left undisturbed can return, and however it does: the first entry of the id is out of the command table, each event of the command's class has lost its oldest listener and no other queue changed, and the owner reference is given back, the command being deleted exactly if that was the last |
| `LifetimeCancels.EveryBlanketRun` | libpanelli/libwifi-hal-mt66xx/gscan.cpp:696-713 | The same for a cancel through a command made for the purpose, which leaves the command table and every other command alone and deletes the one it made |
| `LifetimeCancels.CancelUndoesStartIff` | libpanelli/libwifi-hal-mt66xx/gscan.cpp:677-713 | A successful start followed by its cancel, both undisturbed: the command table is as before and the command is deleted, but the event queues are as before if and only if nobody else was listening to the class's events |
| `LifetimeCancels.EveryDispatchRun` | libpanelli/libwifi-hal-mt66xx/wifi_hal.cpp:545-559 | A dispatch left undisturbed whose callback completes nothing can return, and however it does the tables, cb_lock and every command with its reference count are as before |
| `Handlers.HandlerTable.RegisterHandler` | libpanelli/libwifi-hal-mt66xx/common.cpp:53-76 | Succeeds exactly when the array is not full; then the key's queue grows at its end, every other queue and the array object stay as they are |
| `Handlers.HandlerTable.RegisterVendorHandler` | libpanelli/libwifi-hal-mt66xx/common.cpp:78-102 | The same under (vendor command, id, subcommand) |
| `Handlers.HandlerTable.UnregisterHandler` | libpanelli/libwifi-hal-mt66xx/common.cpp:104-128 | Dequeues the front of the command's queue, refuses the vendor command, leaves every other queue alone |
| `Handlers.HandlerTable.UnregisterVendorHandler` | libpanelli/libwifi-hal-mt66xx/common.cpp:130-151 | Dequeues the front of that vendor key's queue, leaves every other queue alone |
| `Handlers.HandlerTable.RemoveAt` | libpanelli/libwifi-hal-mt66xx/common.cpp:120-122 | The block move over the first entry of a key removes exactly that entry and keeps the order of the rest |
| `Handlers.HandlerTable.FindTarget` | libpanelli/libwifi-hal-mt66xx/wifi_hal.cpp:517-561 | The dispatcher finds the front of the event key's queue, and nothing exactly when that queue is empty; vendor id and subcommand matter only for vendor events |
| `Handlers.AppendEnqueues` | libpanelli/libwifi-hal-mt66xx/common.cpp:62-72 | Appending to the array is enqueueing under that key and nothing else |
| `Handlers.RemoveDequeues` | libpanelli/libwifi-hal-mt66xx/common.cpp:136-148 | Removing the first match is dequeueing that key's front and nothing else |
| `Handlers.FirstMatchIsFront` | libpanelli/libwifi-hal-mt66xx/wifi_hal.cpp:534-548 | The first match in the array is the front of the key's queue; there is none exactly when the queue is empty |
| `Handlers.QueuesPartitionTable` | libpanelli/libwifi-hal-mt66xx/common.cpp:62-70 | The lengths of all queues add up to num_event_cb |
| `Commands.CommandTable.Register` | libpanelli/libwifi-hal-mt66xx/common.cpp:154-174 | Appends exactly when the table is not full |
| `Commands.CommandTable.RemoveAt` | libpanelli/libwifi-hal-mt66xx/common.cpp:187-188 | The move of num_cmd - i entries leaves the live list without entry i, in order, and writes nothing past the allocation |
| `Commands.CommandTable.UnregisterById` | libpanelli/libwifi-hal-mt66xx/common.cpp:176-199 | Returns what a lookup of the id would and removes that first match only |
| `Commands.CommandTable.UnregisterByCmd` | libpanelli/libwifi-hal-mt66xx/common.cpp:217-230 | Removes the first entry pointing at the command, and only it |
| `Commands.CommandTable.Get` | libpanelli/libwifi-hal-mt66xx/common.cpp:201-215 | Agrees with lookup in the ordered list |
| `Commands.LongShiftAgrees` | libpanelli/libwifi-hal-mt66xx/common.cpp:187-188 | Moving num - i entries stays inside the allocation exactly when the table is not full, and then gives the same live list as moving num - i - 1 |
| `Commands.RemovedThenFound` | libpanelli/libwifi-hal-mt66xx/common.cpp:176-215 | After a removal by id, other ids are found as before and the same id finds the next entry registered under it |
| `Commands.FindConcat` | libpanelli/libwifi-hal-mt66xx/common.cpp:201-215 | Lookup finds the earliest registered entry of an id |
| `Teardown.CleanedExactlyOnceIff` | libpanelli/libwifi-hal-mt66xx/wifi_hal.cpp:414-498 | With every access to in_event_loop, clean_up and the exit socket a step of its own: once both threads are through, the handle was freed exactly once unless the two overlapped, and then it was freed twice. They overlap if wifi_cleanup stands between setting clean_up and reading in_event_loop while the loop stands between clearing in_event_loop and testing clean_up, or if wifi_cleanup stands between reading in_event_loop and reading exit_sockets[0] while the loop has left with its sockets closed |
| `Teardown.AtomicRunCleansOnce` | libpanelli/libwifi-hal-mt66xx/wifi_hal.cpp:414-498 | If loop exit and wifi_cleanup were each atomic: freed at most once in every run, and exactly once by the time both are through |
| `Teardown.LoopFinishes` | libpanelli/libwifi-hal-mt66xx/wifi_hal.cpp:458-495 | A cleanup that left the freeing to the loop has signalled it and freed nothing, and whatever poll then reports the loop ends and frees the handle |
| `Teardown.TurnEndsIff` | libpanelli/libwifi-hal-mt66xx/wifi_hal.cpp:458-487 | One pass of the loop ends it exactly on a poll error, the exit signal, a failed read of it, or with clean_up set; otherwise nothing changes and it polls again |
| `Teardown.PollingGoesOn` | libpanelli/libwifi-hal-mt66xx/wifi_hal.cpp:482-487 | Any number of driver events, interruptions and unknown events leave the loop polling while clean_up is unset |
| `Teardown.EnteredIff` | libpanelli/libwifi-hal-mt66xx/wifi_hal.cpp:433-456 | The loop is entered, with open exit sockets and no signal waiting, exactly when its sockets can be made; otherwise nothing changes |
| `Teardown.FreedTwiceExample` | libpanelli/libwifi-hal-mt66xx/wifi_hal.cpp:490-495 | The first overlap happens: the loop leaves on a poll error while wifi_cleanup is being called, and the handle is freed twice |
| `Teardown.SocketClosedExample` | libpanelli/libwifi-hal-mt66xx/wifi_hal.cpp:420-425 | The second overlap happens: wifi_cleanup finds in_event_loop true, the loop frees the handle and closes the sockets, and wifi_cleanup then finds exit_sockets[0] closed and frees the handle again |
| `Netlink.WalkStaysInside` | libpanelli/libwifi-hal-mt66xx/cpp_bindings.h:91-131 | For arbitrary bytes: every header an iterator visits and its declared payload lie in the walked range, siblings do not overlap, and n visits use up at least 4n bytes |
| `Netlink.DescentStaysInside` | libpanelli/libwifi-hal-mt66xx/gscan.cpp:916-972 | At any nesting depth, a visited attribute and its payload lie in the payload the descent started from |
| `Netlink.SeparateDescents` | libpanelli/libwifi-hal-mt66xx/gscan.cpp:916-972 | Descents through different siblings end in ranges that do not overlap |
| `Netlink.NlIterator.constructor` | libpanelli/libwifi-hal-mt66xx/cpp_bindings.h:95-98 | Starts at the attribute's payload with its payload length as signed remaining count |
| `Netlink.NlIterator.HasNext` | libpanelli/libwifi-hal-mt66xx/cpp_bindings.h:99-101 | True exactly when something is left to visit, whose header and payload then lie in memory |
| `Netlink.NlIterator.Next` | libpanelli/libwifi-hal-mt66xx/cpp_bindings.h:102-104 | Moves on by one attribute; the remaining count drops by at least 4 |
| `Netlink.NlIterator.Get` | libpanelli/libwifi-hal-mt66xx/cpp_bindings.h:105-107 | The attribute the walk is at |
| `Netlink.WalkReadsEncoding` | libpanelli/libwifi-hal-mt66xx/cpp_bindings.h:91-131 | Walking an encoded list of attributes visits them in order with their types, lengths and payloads, whatever their types are |
| `Netlink.AttrOfEncoding` | libpanelli/libwifi-hal-mt66xx/cpp_bindings.h:176-203 | An encoded attribute's header and payload read back as written |
| `Requests.WifiRequest.PutU32` | libpanelli/libwifi-hal-mt66xx/cpp_bindings.h:185-187 | Appends the attribute exactly when it fits, otherwise fails and changes nothing |
| `Requests.WifiRequest.AttrStart` | libpanelli/libwifi-hal-mt66xx/cpp_bindings.h:198-200 | Appends an open nest header exactly when it fits, otherwise NULL |
| `Requests.WifiRequest.AttrEnd` | libpanelli/libwifi-hal-mt66xx/cpp_bindings.h:201-203 | Back-patches the length of everything since the header into it |
| `Requests.ClosedNest` | libpanelli/libwifi-hal-mt66xx/cpp_bindings.h:198-203 | Closing an open nest after its body gives the finished nest attribute |
| `ScanRequest.ScanCommand.CreateSetupRequest` | libpanelli/libwifi-hal-mt66xx/gscan.cpp:449-528 | Succeeds exactly when the encoded configuration fits; then walking the new part of the message gives back base period, count and, for bucket i, a nest of type i with id, period, band, step count, maximum period, report events and channel count as they were given, except that a band outside the unspecified..abgWithDfs range is WIFI_BAND_ABG, and every channel under its index; afterwards the bucket in the parameters has that same band and is otherwise unchanged; on failure a prefix of the bands has been normalised. No attr_end ever sees a NULL nest |
| `ScanRequest.ScanCommand.PutBuckets` | libpanelli/libwifi-hal-mt66xx/gscan.cpp:466-524 | All bucket nests in order, or failure because they do not fit |
| `ScanRequest.ScanCommand.PutBucket` | libpanelli/libwifi-hal-mt66xx/gscan.cpp:467-523 | One bucket nest; only that bucket's band may change |
| `ScanRequest.ScanCommand.PutIdPeriodBand` | libpanelli/libwifi-hal-mt66xx/gscan.cpp:468-485 | Id, period and band; a band outside the unspecified..abgWithDfs range is first replaced by WIFI_BAND_ABG, in the parameters too, and one inside is kept |
| `ScanRequest.ScanCommand.PutStepsAndEvents` | libpanelli/libwifi-hal-mt66xx/gscan.cpp:486-507 | The remaining four integer attributes |
| `ScanRequest.ScanCommand.PutChannels` | libpanelli/libwifi-hal-mt66xx/gscan.cpp:509-521 | The channel nest, every channel under its index; when its header does not fit the first channel does not either |
| `ScanRequest.SetupReadsBack` | libpanelli/libwifi-hal-mt66xx/gscan.cpp:449-528 | Builder and walker are inverse: any message holding the encoded configuration reads back as the configuration, by position |
| `ScanRequest.SetupEncoding` | libpanelli/libwifi-hal-mt66xx/gscan.cpp:455-526 | The bytes the puts produce are the encoding of the attribute tree |
| `ScanRequest.BucketTypesCollideIff` | libpanelli/libwifi-hal-mt66xx/gscan.cpp:467-467 | A bucket nest shares its type with the bucket-count or base-period attribute exactly when there are more than 10 buckets |
| `ScanResults.GetScanResultsCommand.Execute` | libpanelli/libwifi-hal-mt66xx/gscan.cpp:851-886 | After any ending the array holds the first max of all scans announced in the rounds made, slots not filled are untouched, every earlier round was asked for, succeeded, brought something and did not report completion. The result is WIFI_SUCCESS exactly when every round made has that status and no further one was wanted but could not be built; otherwise it is the error of building that request, or the status of the last round. Success reports exactly the number stored and comes from 10 rounds, a full array, or a round not worth another; a failure reports no number |
| `ScanResults.GetScanResultsCommand.HandleResponse` | libpanelli/libwifi-hal-mt66xx/gscan.cpp:888-975 | One reply: the scans it announces are appended as far as there is room, the last completion attribute is taken over, a reply that is no vendor command or has no data changes nothing |
| `ScanResults.GetScanResultsCommand.HandleAttr` | libpanelli/libwifi-hal-mt66xx/gscan.cpp:920-967 | One result attribute: its scans are appended as far as there is room |
| `ScanResults.GetScanResultsCommand.HandleInner` | libpanelli/libwifi-hal-mt66xx/gscan.cpp:924-966 | One inner attribute, with both clamps; a scan that finds the array full changes nothing |
| `ScanResults.GetScanResultsCommand.HandleReplies` | libpanelli/libwifi-hal-mt66xx/gscan.cpp:866-866 | The replies of one round in order |
| `ScanResults.GetScanResultsCommand.CopyRecords` | libpanelli/libwifi-hal-mt66xx/gscan.cpp:945-956 | Copies the first num driver records; every read lies in the attribute's payload |
| `ScanResults.GotGrows` | libpanelli/libwifi-hal-mt66xx/gscan.cpp:936-963 | Across rounds the stored list only grows at its end, so a written slot is never rewritten, and it never exceeds max |
| `ScanResults.GotBounded` | libpanelli/libwifi-hal-mt66xx/gscan.cpp:941-942 | Whatever the driver sent, every stored scan has at most MAX_AP_CACHE_PER_SCAN results and exactly that many records |
| `ScanResults.StoredCounts` | libpanelli/libwifi-hal-mt66xx/gscan.cpp:930-942 | Each stored count is at most the announced one and the cap, and negative exactly when the announced 32-bit count is at least 2^31 |
| `ScanResults.CountsNonNegative` | libpanelli/libwifi-hal-mt66xx/gscan.cpp:931-942 | With announced counts below 2^31 no count stored for one result attribute is negative |
| `ScanResults.GotNonNegative` | libpanelli/libwifi-hal-mt66xx/gscan.cpp:851-975 | With all announced counts of all replies below 2^31, no scan in the array has a negative count after any number of rounds |
| `ScanResults.RecordsInsidePayload` | libpanelli/libwifi-hal-mt66xx/gscan.cpp:941-956 | The capacity clamp keeps every copied record inside the payload |
| `ScanReplies.DriverReply` | libpanelli/libwifi-hal-mt66xx/gscan.cpp:888-975 | Round trip with a driver: a reply encoding a list of scans is retrieved as exactly those scans in order, each cut to what the capacity check lets through, and its completion flag is taken over |
| `ScanReplies.ScanReadsBack` | libpanelli/libwifi-hal-mt66xx/gscan.cpp:923-962 | The five attributes of one encoded scan give one stored scan with its id, flags, buckets and records |
| `ScanReplies.NothingCutIff` | libpanelli/libwifi-hal-mt66xx/gscan.cpp:941-942 | Nothing is cut from a non-empty scan exactly when it has at most MAX_AP_CACHE_PER_SCAN records and driver and HAL record structures have the same size |
| `ScanReplies.StoredAt` | libpanelli/libwifi-hal-mt66xx/gscan.cpp:924-962 | Whatever attributes a result attribute holds, in any order: each SCAN_RESULTS under a non-zero count stores one scan of the values collected before it, its count clamped; nothing else stores anything |
| `ScanReplies.CollectedMeans` | libpanelli/libwifi-hal-mt66xx/gscan.cpp:924-937 | The id, flags and buckets collected are those of the last attribute of their type before it, 0 without one |
| `ScanReplies.CountMeans` | libpanelli/libwifi-hal-mt66xx/gscan.cpp:930-943 | The count in force is the last one announced or, after records, what the clamps made of it |
| `ScanReplies.ClampGreatest` | libpanelli/libwifi-hal-mt66xx/gscan.cpp:941-942 | A non-negative count is clamped to the greatest one that the announced count, the payload in HAL records and MAX_AP_CACHE_PER_SCAN allow; a negative one stays |
| `ScanReplies.OuterAt` | libpanelli/libwifi-hal-mt66xx/gscan.cpp:916-972 | Attributes of a reply: type 21 sets the flag, types 30 to 36 give scans, all others are ignored |
| `RttResults.DeliveredAndPending` | libpanelli/libwifi-hal-mt66xx/rtt.cpp:523-623 | Over any sequence of events and any allocation failures: everything delivered so far followed by what is waiting is exactly what survived of all targets received, in order; nothing is waiting once completion was seen |
| `RttResults.KeptRises` | libpanelli/libwifi-hal-mt66xx/rtt.cpp:551-604 | Along all of that, allocation numbers rise strictly: no block is delivered twice |
| `RttResults.SurvivorsPrefix` | libpanelli/libwifi-hal-mt66xx/rtt.cpp:551-558 | Of each target the results before its first failed allocation survive, and only a failed allocation cuts it short |
| `RttResults.NothingLost` | libpanelli/libwifi-hal-mt66xx/rtt.cpp:537-606 | If no allocation fails every result of every target is kept, in order |
| `RttReplies.EventReadsBack` | libpanelli/libwifi-hal-mt66xx/rtt.cpp:530-608 | Round trip with a driver: an event encoding any mixture of targets, completion flags and other attributes, each target any mixture of results and other attributes, is read as exactly the whole payloads of its results, per target and in order |
| `RttReplies.RunDelivers` | libpanelli/libwifi-hal-mt66xx/rtt.cpp:523-623 | Over any run of such events, if no allocation fails: what each call of the callback is handed, and what is still waiting, are exactly the payloads sent, in order; a delivery happens at each event after which the last completion flag sent is not 0 |
| `RttReplies.RunKeeps` | libpanelli/libwifi-hal-mt66xx/rtt.cpp:523-623 | The same with any allocation failures: delivered and waiting together are what survives of the payloads sent |
| `RttReplies.EventExists` | libpanelli/libwifi-hal-mt66xx/rtt.cpp:523-528 | Any such event that fits the 16-bit length can be built |
| `RttResults.InnerGathers` | libpanelli/libwifi-hal-mt66xx/rtt.cpp:537-606 | What walking one target does, whatever attributes it contains: survivors appended, allocations counted, completion forced exactly by a failed allocation |
| `RttResults.LastWord` | libpanelli/libwifi-hal-mt66xx/rtt.cpp:530-558 | A completion attribute at the end of an event decides, even over a failed allocation before it |
| `RttResults.EnoughRoom` | libpanelli/libwifi-hal-mt66xx/rtt.cpp:552-552 | The slot index stays below 1024 whenever the results waiting and those arriving number at most 1024, and if no allocation fails only then |
| `RttResults.FitsIff` | libpanelli/libwifi-hal-mt66xx/rtt.cpp:550-604 | Exactness: an event can be handled inside the array whatever the allocations do if and only if the results waiting and those it carries number at most 1024 |
| `RttResults.OverflowExample` | libpanelli/libwifi-hal-mt66xx/rtt.cpp:552-552 | After 1024 events of one result each and no completion, one more such event writes past the array |
| `RttResults.RttCommand.HandleEvent` | libpanelli/libwifi-hal-mt66xx/rtt.cpp:523-623 | One event is one transition of the run model; on completion exactly the gathered blocks are freed, each of them not freed before |
| `RttResults.RttCommand.Collect` | libpanelli/libwifi-hal-mt66xx/rtt.cpp:530-609 | The outer walk gathers the event's results |
| `RttResults.RttCommand.HandleTarget` | libpanelli/libwifi-hal-mt66xx/rtt.cpp:534-606 | The inner walk; a failed allocation ends it and only it |
| `RttResults.RttCommand.StoreResult` | libpanelli/libwifi-hal-mt66xx/rtt.cpp:550-604 | One result: slots below currentIdx stay non-null and the rest null, totalCnt equals currentIdx, also after a failed allocation |
| `RttResults.RttCommand.Deliver` | libpanelli/libwifi-hal-mt66xx/rtt.cpp:610-617 | Hands over the gathered results, frees each block once, clears its slot and returns to the empty state |
| `EccList.UpdateEffect` | ril/telephony/java/com/android/internal/telephony/MtkEccList.java:188-382 | Effect of rewriting both SIM properties on the answer for every number: the no-SIM numbers and their "+" forms are added exactly when one property was empty and the other not, or when separators only stood in both and there is no always-valid code; nothing else changes |
| `EccList.SameEmptinessSameAnswers` | ril/telephony/java/com/android/internal/telephony/MtkEccList.java:335-382 | With an always-valid code and both properties empty or both non-empty, no answer changes |
| `EccList.EmptySegmentEffect` | ril/telephony/java/com/android/internal/telephony/MtkEccList.java:188-382 | The one remaining case, an empty segment with the number "" or "+": answered yes before, and afterwards only if the network or a listed "+" says so |
| `EccList.StableFromFirst` | ril/telephony/java/com/android/internal/telephony/MtkEccList.java:352-380 | A property that held something is final after one rewrite, exactly when something of it is left or there are no no-SIM codes |
| `EccList.StableFromSecond` | ril/telephony/java/com/android/internal/telephony/MtkEccList.java:352-380 | An empty property is final after two rewrites |
| `EccList.NumbersFixed` | ril/telephony/java/com/android/internal/telephony/MtkEccList.java:352-380 | The set of numbers in a property is final from the first rewrite that leaves any |
| `EccList.AnswersFixed` | ril/telephony/java/com/android/internal/telephony/MtkEccList.java:222-255 | And so is the answer a property gives for every number |
| `EccList.FixedOnce` | ril/telephony/java/com/android/internal/telephony/MtkEccList.java:358-364 | With a duplicate-free customized list every always-valid number stands exactly once in the rewritten property |
| `EccList.UpdatedReadsBack` | ril/telephony/java/com/android/internal/telephony/MtkEccList.java:354-365 | The rewritten property splits back into exactly the list it was joined from |
| `EccList.UpdatedEmpty` | ril/telephony/java/com/android/internal/telephony/MtkEccList.java:354-380 | The rewritten property is empty exactly when it was empty and there are no customized entries, or it held only separators and there is no always-valid code |
| `EccList.CtaOverride` | ril/telephony/java/com/android/internal/telephony/MtkEccList.java:152-178 | The CTA override of any parsed list: every entry keeps its position, the first entry of each of the four codes is replaced, the missing codes follow in order, nothing else |
| `EccList.CtaEachOnce` | ril/telephony/java/com/android/internal/telephony/MtkEccList.java:152-178 | From a list without repeated codes: no repeated codes, and each of 120, 122, 110 and 119 once, with condition ECC_FOR_MMI and category 0 |
| `EccList.ServiceCategory` | ril/telephony/java/com/android/internal/telephony/MtkEccList.java:297-333 | For a number not ending in "+": the last category the network property lists for it (segments without exactly two fields ignored), else that of the first customized entry with that code, else 0 |
| `EccList.LastCategoryWins` | ril/telephony/java/com/android/internal/telephony/MtkEccList.java:201-213 | The map filled from the network property holds for each number the category of the last segment naming it |
| `EccAnswers.NetworkOfSegments` | ril/telephony/java/com/android/internal/telephony/MtkEccList.java:204-213 | For a category property listing segments joined by semicolons, each of fields joined by commas: loading fails exactly when some segment of two fields has a category that does not parse; otherwise the map holds for each number named by a segment of two fields the category of the last such segment, and nothing else |
| `EccAnswers.AnswerOfLists` | ril/telephony/java/com/android/internal/telephony/MtkEccList.java:188-289 | For such a property and SIM properties listing numbers: a number is an emergency number exactly when it, or it less a closing "+", is named by a network segment, is listed by either SIM, or is the code of an entry whose condition is not "0" or, if neither SIM lists anything, of any entry; an unparsable category is an exception |
| `EccAnswers.CategoryOfSegments` | ril/telephony/java/com/android/internal/telephony/MtkEccList.java:297-333 | For such a property the service category of any number, with or without a "+", is that of a segment naming it or it less the "+", the last one to name what it names; without one, of the first entry with such a code; without one, 0 |
| `EccAnswers.CategoryOfPlain` | ril/telephony/java/com/android/internal/telephony/MtkEccList.java:297-313 | For a number not ending in "+" it is the category of the last segment naming it |
| `EccAnswers.UpdatedOfNumbers` | ril/telephony/java/com/android/internal/telephony/MtkEccList.java:352-380 | A property listing numbers is rewritten to those that are not always-valid, in order, followed by the always-valid ones; an empty one to these followed by the no-SIM ones |
| `EccAnswers.ListsInOrder` | ril/telephony/java/com/android/internal/telephony/MtkEccList.java:335-350 | The always-valid codes are those of the entries with a condition other than "0", the no-SIM codes the non-empty ones of the others, both in entry order |
| `EccAnswers.CtaCodes` | ril/telephony/java/com/android/internal/telephony/MtkEccList.java:152-178 | On a list with none of the four codes the CTA override appends 120, 122, 110 and 119 in this order, each with category 0 and condition 2 |
| `EccList.MtkEccList.ParseEccList` | ril/telephony/java/com/android/internal/telephony/MtkEccList.java:109-186 | The customized list after parsing and, when it applies, the CTA override; none after an exception |
| `EccList.MtkEccList.OverrideOne` | ril/telephony/java/com/android/internal/telephony/MtkEccList.java:155-176 | One code: first match replaced in place, otherwise appended |
| `EccList.MtkEccList.LoadCategories` | ril/telephony/java/com/android/internal/telephony/MtkEccList.java:201-213 | Refills the category map from the property, as `Network` says; an unparsable category is an exception that leaves what was filled so far |
| `EccList.MtkEccList.IsEmergencyNumberExt` | ril/telephony/java/com/android/internal/telephony/MtkEccList.java:188-289 | The answer from network numbers, both SIM lists and the customized entries, of which the no-SIM ones count only when both lists are empty; null is no emergency number |
| `EccList.MtkEccList.GetServiceCategoryFromEcc` | ril/telephony/java/com/android/internal/telephony/MtkEccList.java:297-333 | A category of some matching network number if there is one, else that of the first matching customized entry, else 0, whatever order the map is visited in |
| `EccList.MtkEccList.UpdateEmergencyNumbersProperty` | ril/telephony/java/com/android/internal/telephony/MtkEccList.java:335-382 | Both properties rewritten; nothing else changes |
| `EccList.MtkEccList.Rewrite` | ril/telephony/java/com/android/internal/telephony/MtkEccList.java:352-365 | One property: its own non-empty numbers without the always-valid ones, then those, and for an empty property the no-SIM ones moved to the end |
| `Strings.SplitOfJoin` | ril/telephony/java/com/android/internal/telephony/MtkEccList.java:354-365 | Joining with commas and splitting give the list back |
| `Strings.SplitEnds` | ril/telephony/java/com/android/internal/telephony/MtkEccList.java:229-229 | Splitting a non-empty property never yields a last field that is empty |
| `Strings.JoinOfSplit` | ril/telephony/java/com/android/internal/telephony/MtkEccList.java:204-229 | Every string is its split joined again, up to empty fields at the end |
| `DataCalls.EveryRun` | ril/telephony/java/com/android/internal/telephony/MT6735.java:256-302 | In every run with one set-up outstanding and no deactivation meanwhile, whatever ids the modem gives and whatever calls the network drops: the fifth cell stays free, each live call stands in the slot before the interface id sent for it, and no two live calls share a non-zero one; an id has stood in two slots exactly if some reply repeated a stored id while a slot was free. As long as replies bring ids of no live call and nothing is dropped, the stored calls are exactly the live ones with an interface, each once |
| `DataCalls.EveryRunAtMostFour` | ril/telephony/java/com/android/internal/telephony/MT6735.java:256-302 | If set-ups are requested only while fewer than four calls are live, replies bring ids of no live call and nothing is dropped: the stored ids are exactly the live ones and every live call has its own interface id from 1 to 4 |
| `DataCalls.StoredTwiceIff` | ril/telephony/java/com/android/internal/telephony/MT6735.java:473-486 | A reply makes an id stand in two slots exactly when it is stored already and a slot is free |
| `DataCalls.StoredTwiceExample` | ril/telephony/java/com/android/internal/telephony/MT6735.java:473-486 | A run in which the network drops a call and the modem gives its id again: it ends with the id stored twice |
| `DataCalls.LandsWhereAnnouncedIff` | ril/telephony/java/com/android/internal/telephony/MT6735.java:473-486 | With deactivations between request and reply, the new call lands in the slot announced for it exactly when none of the deactivated ids was stored in a lower slot |
| `DataCalls.DataCallSlots.SetupDataCall` | ril/telephony/java/com/android/internal/telephony/MT6735.java:275-282 | The interface id sent is one more than the first free slot, 0 without one |
| `DataCalls.DataCallSlots.FetchCidFromDataCall` | ril/telephony/java/com/android/internal/telephony/MT6735.java:473-486 | A non-negative id goes to the first free slot, if any; nothing else changes |
| `DataCalls.DataCallSlots.DeactivateDataCall` | ril/telephony/java/com/android/internal/telephony/MT6735.java:292-302 | Clears the first of the four slots holding the id; nothing else changes |
| `DataCalls.FreeSlotLeft` | ril/telephony/java/com/android/internal/telephony/MT6735.java:275-281 | While fewer than four calls are live, and replies have brought new ids and nothing was dropped, an interface id other than 0 is announced |
| `SharedFreqs.GetSharedRadioFreqsData` | libpanelli/wpa_supplicant_8_lib/mediatek_driver_cmd_nl80211.c:899-945 | One cell per distinct frequency of the interfaces visited, by first occurrence: an access point or group owner contributes its network's frequency, a connected station the associated one, an interface without network, association or BSSID nothing. A cell's flag is that of the last visited infrastructure interface on it, 2 for a P2P client and 1 otherwise, or 0; the other cells are cleared, and all interfaces are visited unless the cells run out |
| `SharedFreqs.VisitedSuffices` | libpanelli/wpa_supplicant_8_lib/mediatek_driver_cmd_nl80211.c:912-916 | Stopping at the cap loses nothing: the list is the first len of all distinct frequencies |
| `SharedFreqs.DistinctMeans` | libpanelli/wpa_supplicant_8_lib/mediatek_driver_cmd_nl80211.c:929-935 | The list holds exactly the frequencies in use, none twice, ordered by their first user |
| `SharedFreqs.LastFlagMeans` | libpanelli/wpa_supplicant_8_lib/mediatek_driver_cmd_nl80211.c:937-941 | A flag is that of the last infrastructure interface on the frequency |
| `SharedFreqs.NoFlagMeans` | libpanelli/wpa_supplicant_8_lib/mediatek_driver_cmd_nl80211.c:937-941 | A flag is 0 exactly when no infrastructure interface uses the frequency |
| `SharedFreqs.GetSharedRadioFreqs` | libpanelli/wpa_supplicant_8_lib/mediatek_driver_cmd_nl80211.c:948-967 | The first len distinct frequencies and their number, the rest of the len cells 0; -1 and cleared cells when memory is short; cells past len untouched |
| `P2pChannels.ConversionInverts` | libpanelli/wpa_supplicant_8_lib/mediatek_driver_cmd_nl80211.c:819-854 | The conversion yields a channel exactly when the channel is in range of its class and its frequency, by the starting frequency of Table E-4 of Annex E of IEEE 802.11-2012, is the given one |
| `P2pChannels.ListedRoundTrip` | libpanelli/wpa_supplicant_8_lib/mediatek_driver_cmd_nl80211.c:819-854 | Every channel Table E-4 lists for the four classes is reached from its own frequency |
| `P2pChannels.ListedIff` | libpanelli/wpa_supplicant_8_lib/mediatek_driver_cmd_nl80211.c:837-852 | A recognised frequency gives a listed channel exactly when, in the 5 GHz classes, it is a multiple of 20 MHz from the first one; the code also accepts the frequencies in between |
| `P2pChannels.SccForces` | libpanelli/wpa_supplicant_8_lib/mediatek_driver_cmd_nl80211.c:868-878 | After any calls and then SCC on a recognised frequency, the one channel allowed and operated on is the one with that frequency |
| `P2pChannels.SccUnrecognisedIff` | libpanelli/wpa_supplicant_8_lib/mediatek_driver_cmd_nl80211.c:868-871 | The channel operated on after SCC has the requested frequency exactly if that was recognised or the two uninitialised locals happened to hold such a channel |
| `P2pChannels.MccUndoes` | libpanelli/wpa_supplicant_8_lib/mediatek_driver_cmd_nl80211.c:880-895 | After any calls, MCC gives the same whole state as if it were the first call: the channel set is the one configured at the start, a configured class and channel are operated on as their values modulo 256, and without one class 81 with channel 1, 6 or 11 as the random number leaves remainder 0, 1 or 2 |
| `P2pChannels.ConfigurationKept` | libpanelli/wpa_supplicant_8_lib/mediatek_driver_cmd_nl80211.c:868-895 | No sequence of calls changes the configured channel set, and SCC calls leave the configured flag alone |
| `P2pChannels.PrivP2pFreqToChannel` | libpanelli/wpa_supplicant_8_lib/mediatek_driver_cmd_nl80211.c:819-854 | 0 and the channel, or -1 with both outputs left as they were |
| `P2pChannels.WpaSupplicant.P2pWfdSinkConfigScc` | libpanelli/wpa_supplicant_8_lib/mediatek_driver_cmd_nl80211.c:856-896 | One call is one transition of the run model; without P2P data nothing happens; always returns 0 |

## Left out

- LifetimeRuns.EveryRunIsSafe: does not claim that every command is eventually deleted, because a failed start and an RTT range cancel leave the original command's owner reference behind in the source.
- Lifetime: the memory model of the machine; steps are sequentially consistent.
- Lifetime: SetAlertHandler and SetLogHandler, whose cancel() does not remove every key on every path.
- RttResults.DeliveredAndPending: says nothing of the LCI and LCR element pointers set inside a result block, because the source subtracts the structure size twice there and the intended parse is not what it does.
- RttResults.RttCommand.HandleEvent: leaves the final wifi_unregister_cmd and releaseRef to the lifetime model.
- ScanRequest.ScanCommand.CreateSetupRequest: what create() put in the message before is an arbitrary prefix, and a negative bucket or channel count is not modelled.
- ScanResults.GetScanResultsCommand.CopyRecords: keeps driver records as bytes; convert_to_hal_result and cells of a slot's result array beyond the count are not modelled.
- Netlink.WalkReadsEncoding: states the round trip for encodings below 64 KiB, the range of the 16-bit length field.
- Structure layouts and constants of wifi_hal.h, wpa_supplicant_i.h and p2p headers: these files are not part of this model, so sizes, bands and flag values are parameters or named constants.
- Full-scan, hotlist, ANQPO, ePNO and significant-change event payloads, which are cast to structures from headers not in the tree.
- Sockets, poll, nl_recvmsgs, ioctl, XML parsing, Parcel and the property store (a property is an unbounded string cell).
- libnl beyond the attribute layer; attributes are never marked as nested in their type.
- EccList.MtkEccList.GetServiceCategoryFromEcc: Integer.parseInt and extractNetworkPortionAlt are arbitrary functions.
- wifi_logger.cpp, wifi_offload.cpp, link_layer_stats.cpp, the driver command-string dispatcher, statistics printing, USSD, SIM refresh and power handling: plumbing or single-branch logic.
