# A model of the BLE throttle's attribute stack

The repository drives a BLE device from a joystick throttle. Most of its logic
is the vendored BlueZ/gattlib code. This project models, in Dafny, the parts of
it that have the most state:

- **ATT transport** (`gattrib.c`). `Scheduler.dfy` is the state machine: two
  queues, the `sent` flag, write watch, timer, stale flag and reference count.
  Each GLib callback is one atomic step. What user callbacks do is an input of
  the step: a script of calls back into the scheduler, among them taking and
  giving back references. So every theorem holds for every callback that uses
  the object only while it exists and gives back only references users have.
  All events go to a log. `Ledger.dfy` is an independent
  auditor of such logs that knows the rules of sections 3.3.2 and 3.3.3 of
  Bluetooth Core Specification Vol 3 Part F but no queues.
  `SchedulerSafety.dfy` proves that every reachable log passes the audit,
  `SchedulerTheorems.dfy` states what that means. `SchedulerContent.dfy` proves
  that the wire carries what callers submit, unchanged, once, and not after a
  cancel; `SchedulerCalls.dfy` that exactly the calls made are accepted, in
  order. `SchedulerLifetimes.dfy` says who may free the object and when it is
  used afterwards, and `GAttrib.dfy` is the object with its pop loops, proved
  to refine the state machine.
- **GATT client procedures** (`gatt.c`): long reads alone (`LongRead.dfy`) and
  on top of the scheduler with any other traffic (`LongReadChain.dfy`, and
  `LongReadWitness.dfy` for a run that goes wrong, `Continuation.dfy` for the
  order of its requests on the wire), primary
  service discovery (`PrimaryDiscovery.dfy`) and characteristic discovery
  (`CharDiscovery.dfy`), each against any conforming server.
- **ATT PDU codec** (`att.c`, `att.h`): `AttPdu.dfy` on octet strings,
  `AttBuffer.dfy` on the caller's buffer, `Octets.dfy` for words.
- **Device and adapter registry** (gattlib): `DeviceStates.dfy`,
  `RefCounts.dfy`, `Adapters.dfy`, `AdapterSafety.dfy`, `AdapterTheorems.dfy`
  and the object `Gattlib.dfy`.
- **Bluetooth addresses** (`bluetooth.c`): `Address.dfy`. **Throttle**
  (`throttleinput.c`, `main.c`): `Throttle.dfy`.

`dafny verify dfyconfig.toml` checks everything.

## What the code does not do

Where a natural promise is false of the code, the model keeps the code and the
project proves exactly when the promise holds:

- A response pops the head of the requests whether it was sent or not
  (`gattrib.c:402`), so pairing of replies holds exactly for peers that reply
  only when they owe a reply (`RepliesArePaired`, `UnsolicitedReplyMisleads`).
- `received_data` decides before the callback whether to wake the sender, and
  then does so even if the callback, like the end of a discovery
  (`gatt.c:57-70`), gave back the last reference: it reads the freed object
  exactly in the runs of `FreedIsTouchedExactly`, one of which is
  `FreedObjectIsRead`. `disconnect_timeout` holds a reference of its own
  (`gattrib.c:258`, `gattrib.c:278`) and never does (`TimeoutSurvives`).
- `disconnect_timeout` returns FALSE without clearing `timeout_watch`, so
  `attrib_destroy` destroys a source that no longer exists exactly if a timeout
  fired before (`FreeingIsWildExactly`).
- Two requests resent by one callback overtake each other
  (`TwoResentOvertake`); `gatt.c` never resends two, and then a continuation is
  the next request written (`ContinuationIsNext`).
- The receive buffer has 512 octets (`gattrib.c:362`), so with a larger MTU a
  long value is cut and still reported as complete (`LongReadIsExact`).
- An error in a later round of a long read is reported as success
  (`gatt.c:408-411`; `ReadsAreHonest` says exactly when success is complete,
  `ErrorLooksLikeSuccess` gives the runs in which it is not).
- The element length of a group or read-by-type response is sent in one octet,
  and the receiver divides by it (`att.c:208-209`, `att.c:432-433`): lists with
  longer elements are cut or end in a division by zero (`GroupRespRoundTrip`,
  `TypeRespRoundTrip`). Discovery divides by zero exactly on replies whose
  element length reads 0, and reads behind the copied elements exactly on
  replies with an element of fewer than 4 octets (services), or of neither 7
  nor at least 21 (characteristics) (`AllFailsExactly`, `CharsFailExactly`).
- `enc_read_resp`, `enc_read_blob_resp` and `enc_read_by_type_resp` compute a
  negative copy length for buffers that are too small and for an offset behind
  the value (`PutReadResp`, `PutReadBlobResp`, `PutTypeResp`; None is the
  outcome in which the code overruns its buffer).
- A search for a 32-bit service UUID sends all 16 octets of the union
  (`gatt.c:95-99`), so it finds the services whose 128-bit UUID these are.
- Opening an adapter looks it up and lists it in two separate critical sections
  (`gattlib_adapter.c:34-80`), so overlapping opens list it twice
  (`UnambiguousExactlyInTime`, `DoubleOpen`); its path is cut to 19 characters
  (`NamesAreCut`).
- A last bare unref of an adapter, which a discovery callback can make after
  the opener closed, leaks devices that are not DISCONNECTED
  (`ForgottenExactlyWhenStranded`, `ForgottenIsLeaked`, `StrandedDevice`).
- `baswap` into its own argument does not swap (`Baswap`).

## Model

| member | source | states |
|---|---|---|
| SchedulerSafety.RunsAreSafe | libs/gattlib-master/bluez/bluez4/attrib/gattrib.c:173-602 | in every reachable state the queues, the timer, the write watch, the reference count and an independent audit of everything that happened agree, whatever callbacks submit, cancel, take or give back |
| SchedulerTheorems.SequentialProtocol | libs/gattlib-master/bluez/bluez4/attrib/gattrib.c:283-334 | at most one request is outstanding, it is the head of `requests`, and no response is ever outstanding |
| SchedulerTheorems.RepliesArePaired | libs/gattlib-master/bluez/bluez4/attrib/gattrib.c:394-431 | the k-th reply is consumed by the k-th transmitted transaction, for every k, if and only if the peer replied only when it owed a reply |
| SchedulerTheorems.UnsolicitedReplyMisleads | libs/gattlib-master/bluez/bluez4/attrib/gattrib.c:397-407 | for every request and every response: the two-step run in which the response arrives before the request is written; its whole log shows the request taking it, being called back and destroyed without ever being written, and pairing is off |
| SchedulerTheorems.RepliesReachTheirOwner | libs/gattlib-master/bluez/bluez4/attrib/gattrib.c:404-427 | a result function is given the reply its own command consumed, and exactly the status that reply means: the code of an error response, 0 for the response one above the submitted request opcode, I/O error (0x80) otherwise |
| SchedulerTheorems.CallbacksRunAtMostOnce | libs/gattlib-master/bluez/bluez4/attrib/gattrib.c:426-431 | a result function runs at most once, never after its command was cancelled or destroyed, so the reply to a cancelled in-flight request is absorbed |
| SchedulerTheorems.ResultsAreDelivered | libs/gattlib-master/bluez/bluez4/attrib/gattrib.c:156-431 | the other half: unless the connection is freed, a request (even opcode 0x02 to 0x18 other than 0x14, or an indication) submitted with a result function is destroyed only after the function ran or the command was cancelled |
| SchedulerTheorems.NoLostWakeup | libs/gattlib-master/bluez/bluez4/attrib/gattrib.c:421-434 | between callbacks, while usable and without an earlier write failure or hang-up, anything that could be written has the write watch armed |
| SchedulerTheorems.TimerGuardsFlight | libs/gattlib-master/bluez/bluez4/attrib/gattrib.c:253-334 | while not stale a timer runs exactly when the head is in flight, and it is the one armed for that transaction |
| SchedulerTheorems.CommandsAreConserved | libs/gattlib-master/bluez/bluez4/attrib/gattrib.c:156-214 | every accepted command is in exactly one queue or was destroyed, once; nothing happens to it afterwards; freeing the object destroys what is left |
| SchedulerTheorems.ReferencesAreExact | libs/gattlib-master/bluez/bluez4/attrib/gattrib.c:216-231 | although callbacks take and give back references, the counter is the users' references plus one for the armed write watch, and the object is freed exactly when it reaches zero |
| SchedulerTheorems.WireIsOrderly | libs/gattlib-master/bluez/bluez4/attrib/gattrib.c:299-334 | between two transactions on the wire the first consumed its reply; requests wait for accepted responses; within a queue submission order is kept |
| Continuation.ContinuationIsNext | libs/gattlib-master/bluez/bluez4/attrib/gattrib.c:504-519 | with gatt.c as the only code that resends: after a continuation was accepted no other request at all is written before it is written or destroyed |
| Continuation.NeverCrowded | libs/gattlib-master/bluez/bluez4/attrib/gatt.c:430-474 | in every such run at most one resent request waits, at the head of the requests, and none was written past another |
| Continuation.TwoResentOvertake | libs/gattlib-master/bluez/bluez4/attrib/gattrib.c:509-513 | in general a callback that resends twice leaves the later request in front of the earlier one |
| SchedulerTheorems.ResentGoesNext | libs/gattlib-master/bluez/bluez4/attrib/gattrib.c:504-519 | for any callbacks: no tail submission is written before a request resent earlier has been written or destroyed |
| SchedulerTheorems.CancelAllLeaves | libs/gattlib-master/bluez/bluez4/attrib/gattrib.c:576-615 | cancel-all leaves no response and at most the in-flight head, with its callback cleared |
| SchedulerTheorems.TimeoutStatuses | libs/gattlib-master/bluez/bluez4/attrib/gattrib.c:253-281 | a timeout tells the head TIMEOUT and every later callback ABORTED, whatever those callbacks submit or cancel |
| SchedulerTheorems.TimeoutTells | libs/gattlib-master/bluez/bluez4/attrib/gattrib.c:253-281 | the same for the whole callback, including the release at its end |
| SchedulerTheorems.TimeoutEndsEverything | libs/gattlib-master/bluez/bluez4/attrib/gattrib.c:253-281 | the exact state after a timeout whose callbacks make no calls: requests empty, stale, and the full list of callbacks and destructions in order |
| SchedulerTheorems.StaleIsSilent | libs/gattlib-master/bluez/bluez4/attrib/gattrib.c:293-294 | no step after a timeout writes, delivers or consumes anything |
| SchedulerTheorems.WireIsFrozen | libs/gattlib-master/bluez/bluez4/attrib/gattrib.c:488-489 | after a timeout the connection stays stale and its wire trace never grows, over every continuation |
| SchedulerTheorems.StaleIsFinal | libs/gattlib-master/bluez/bluez4/attrib/gattrib.c:253-281 | no step clears the stale flag |
| SchedulerLifetimes.FreedIsTouchedExactly | libs/gattlib-master/bluez/bluez4/attrib/gattrib.c:388-434 | over every run: the library touches the freed object if and only if the run ends with a reading in which a notification handler gave up every reference, or the result function did so while something was queued |
| SchedulerLifetimes.FreedObjectIsRead | libs/gattlib-master/bluez/bluez4/attrib/gattrib.c:421-434 | the run: a discovery holds the connection, a read is queued behind it, the user lets go, and the discovery's end lets go; whatever the reply, the freed object is read |
| SchedulerLifetimes.FreedByScript | libs/gattlib-master/bluez/bluez4/attrib/gattrib.c:216-231 | the calls of a callback free the object if and only if they leave users without references, counted from the calls alone, and the write watch unarmed |
| SchedulerLifetimes.TimeoutSurvives | libs/gattlib-master/bluez/bluez4/attrib/gattrib.c:258-278 | during a timeout no callback can free the object |
| SchedulerLifetimes.OthersTouchNothing | libs/gattlib-master/bluez/bluez4/attrib/gattrib.c:253-355 | no user call, write, failed read or timeout touches the freed object |
| SchedulerLifetimes.FreeingIsWildExactly | libs/gattlib-master/bluez/bluez4/attrib/gattrib.c:195-197 | freeing destroys a timer source that was already disposed of if and only if a timeout fired in an earlier step |
| SchedulerLifetimes.StaleExactlyAfterTimeout | libs/gattlib-master/bluez/bluez4/attrib/gattrib.c:276 | a live connection is stale if and only if a timeout fired |
| Ledger.OpcodeTables | libs/gattlib-master/bluez/bluez4/attrib/gattrib.c:79-142 | the two tables, characterised without them: exactly the even opcodes from 0x02 to 0x18 except 0x14, and 0x1D, wait for the next opcode; exactly the odd ones up to 0x19 except 0x15, and 0x1E, are responses; none is both |
| Ledger.OneRequestPerResponse | libs/gattlib-master/bluez/bluez4/attrib/gattrib.c:79-142 | every response opcode other than 0x01 is expected by exactly one request opcode, and 0x01 by none |
| SchedulerContent.WireCarriesSubmissions | libs/gattlib-master/bluez/bluez4/attrib/gattrib.c:315-316 | over every run: each PDU written belongs to a command accepted earlier, and its opcode and octets are those of a send or resend call made in the step that accepted it |
| SchedulerContent.AcceptedWasSubmitted | libs/gattlib-master/bluez/bluez4/attrib/gattrib.c:481-530 | every accepted command was submitted, field by field, by a call of the very step that accepted it |
| SchedulerCalls.SubmissionsAreAccepted | libs/gattlib-master/bluez/bluez4/attrib/gattrib.c:481-530 | over every legal run the commands accepted are exactly the submissions of users, notification handlers and result functions, none lost, none added, in the order made; a stale connection admits none |
| SchedulerCalls.StepMakes | libs/gattlib-master/bluez/bluez4/attrib/gattrib.c:357-437 | the same for each step, and which callback's calls are performed: at most the given one for a reply, the given ones in turn for a timeout |
| SchedulerContent.WrittenAtMostOnce | libs/gattlib-master/bluez/bluez4/attrib/gattrib.c:315-326 | over every run no command is written twice, and none is written after it was cancelled |
| SchedulerContent.CommandsKeepTheirContents | libs/gattlib-master/bluez/bluez4/attrib/gattrib.c:426-431 | whatever is written, cancelled, called back or destroyed is a command accepted before, with all fields unchanged but `sent` and a cleared callback; a callback's status is the one its reply means |
| SchedulerContent.CancelIsExact | libs/gattlib-master/bluez/bluez4/attrib/gattrib.c:540-574 | g_attrib_cancel on any state: nothing changes if no queue holds the id; else the first command with the id, requests before responses, is cancelled, and destroyed unless it is the in-flight head, which stays with its callback cleared; every other command keeps its place and fields |
| SchedulerContent.SendIsExact | libs/gattlib-master/bluez/bluez4/attrib/gattrib.c:481-530 | g_attrib_send on any live state: refused if stale; else the new id, the contents, the queue, the end of the queue and the wake-up, in closed form |
| SchedulerContent.WritableIsExact | libs/gattlib-master/bluez/bluez4/attrib/gattrib.c:283-334 | a write callback writes the oldest response, or without one the unsent head, exactly if it is not stale and the write succeeds, and nothing else; the watch stays armed exactly after a write that expects no reply |
| SchedulerContent.ReadsWake | libs/gattlib-master/bluez/bluez4/attrib/gattrib.c:421-434 | after a fault the sender is woken by a failed read or by a reply that leaves something queued |
| SchedulerContent.ScriptsCompose | libs/gattlib-master/bluez/bluez4/attrib/gattrib.c:426-427 | running one callback's calls and then another's is running all of them |
| SchedulerCalls.CallbackIsExact | libs/gattlib-master/bluez/bluez4/attrib/gattrib.c:426-431 | a result function runs, if set, with the id of its own command, before that command is destroyed |
| Ledger.DestroyedIsFinal | libs/gattlib-master/bluez/bluez4/attrib/gattrib.c:156-163 | in an accepted log a destroyed command is never mentioned again |
| Ledger.MutedIsFinal | libs/gattlib-master/bluez/bluez4/attrib/gattrib.c:566-571 | no callback follows the cancellation or the first callback of its command |
| Ledger.OneTransactionAtATime | libs/gattlib-master/bluez/bluez4/attrib/gattrib.c:320-331 | two transactions on the wire have the reply of the first between them |
| Ledger.WrittenInOrder | libs/gattlib-master/bluez/bluez4/attrib/gattrib.c:504-519 | tail submissions of one queue are written in submission order |
| Ledger.ResponsesFirst | libs/gattlib-master/bluez/bluez4/attrib/gattrib.c:299-313 | a response accepted earlier has left the scheduler before a request is written |
| Ledger.ResentFirst | libs/gattlib-master/bluez/bluez4/attrib/gattrib.c:504-519 | a resent request has been written or destroyed before a later tail submission is written |
| Ledger.ResentNext | libs/gattlib-master/bluez/bluez4/attrib/gattrib.c:504-519 | in a log that was never crowded, no other request is written before a resent one is written or destroyed |
| Ledger.SettledBeforeDestroyed | libs/gattlib-master/bluez/bluez4/attrib/gattrib.c:426-431 | in a log that lost nothing, a callback or a cancel lies between acceptance and destruction of such a transaction |
| Ledger.CalledWithOwnReply | libs/gattlib-master/bluez/bluez4/attrib/gattrib.c:404-427 | the PDU of a callback is the reply its command consumed |
| SchedulerSafety.ReadableKeeps | libs/gattlib-master/bluez/bluez4/attrib/gattrib.c:357-437 | receiving keeps the invariant although emptiness is computed before a callback that may submit |
| SchedulerSafety.WritableKeeps | libs/gattlib-master/bluez/bluez4/attrib/gattrib.c:283-342 | writing keeps the invariant in all its branches, including the release of the last reference |
| SchedulerSafety.FlushKeeps | libs/gattlib-master/bluez/bluez4/attrib/gattrib.c:253-281 | popping every request in a timeout keeps queues and audit in agreement and changes nothing on the wire |
| SchedulerSafety.ActKeeps | libs/gattlib-master/bluez/bluez4/attrib/gattrib.c:481-615 | every call a user or a callback can make keeps the invariant, the wire and the transaction in flight |
| SchedulerSafety.DeliverKeeps | libs/gattlib-master/bluez/bluez4/attrib/gattrib.c:426-431 | running a result function and destroying its command keeps the invariant |
| SchedulerSafety.DestroyAllKeeps | libs/gattlib-master/bluez/bluez4/attrib/gattrib.c:173-214 | freeing keeps queues and audit in agreement, also in the middle of a callback whose command is still held |
| SchedulerSafety.DropReferenceKeeps | libs/gattlib-master/bluez/bluez4/attrib/gattrib.c:216-231 | giving back a reference keeps the invariant and, unless it was the last one, disturbs nothing |
| GAttribObject.GAttrib.constructor | libs/gattlib-master/bluez/bluez4/attrib/gattrib.c:439-479 | a new connection is the initial state |
| GAttribObject.GAttrib.Submit | libs/gattlib-master/bluez/bluez4/attrib/gattrib.c:481-530 | g_attrib_send does exactly what the state machine says, and returns 0 if stale, a reused id, or the next one modulo 2^32 |
| GAttribObject.GAttrib.CancelCommand | libs/gattlib-master/bluez/bluez4/attrib/gattrib.c:540-574 | g_attrib_cancel refines the step, and returns true exactly if a queue holds the id |
| GAttribObject.GAttrib.CancelAllRequestsLoop | libs/gattlib-master/bluez/bluez4/attrib/gattrib.c:576-602 | the pop loop that sets a sent head aside is cancellation in place |
| GAttribObject.GAttrib.CancelAllResponsesLoop | libs/gattlib-master/bluez/bluez4/attrib/gattrib.c:576-602 | the pop loop over the responses |
| GAttribObject.GAttrib.ReceivedData | libs/gattlib-master/bluez/bluez4/attrib/gattrib.c:357-437 | received_data refines the step and keeps the invariant |
| GAttribObject.GAttrib.HandleResponse | libs/gattlib-master/bluez/bluez4/attrib/gattrib.c:397-434 | the response part: pop, status, callback, destroy, wake-up |
| GAttribObject.GAttrib.CanWriteData | libs/gattlib-master/bluez/bluez4/attrib/gattrib.c:283-334 | can_write_data refines the step, keeps the invariant, and returns true exactly if the watch stays |
| GAttribObject.GAttrib.DestroySender | libs/gattlib-master/bluez/bluez4/attrib/gattrib.c:336-342 | the watch's reference is given up |
| GAttribObject.GAttrib.WakeUpSender | libs/gattlib-master/bluez/bluez4/attrib/gattrib.c:344-355 | the watch is armed once and takes a reference |
| GAttribObject.GAttrib.DisconnectTimeout | libs/gattlib-master/bluez/bluez4/attrib/gattrib.c:253-281 | the timeout with its own reference and its pop loop refines the step and keeps the invariant |
| GAttribObject.GAttrib.AttribDestroy | libs/gattlib-master/bluez/bluez4/attrib/gattrib.c:173-214 | the two destruction loops |
| GAttribObject.GAttrib.Unref | libs/gattlib-master/bluez/bluez4/attrib/gattrib.c:216-231 | g_attrib_unref |
| GAttribObject.GAttrib.RunCalls | libs/gattlib-master/bluez/bluez4/attrib/gattrib.c:426-427 | the calls of a callback, one after the other, up to the one that frees the object |
| AttPdu.RangeReqRoundTrip | libs/gattlib-master/bluez/bluez4/attrib/att.c:116-169 | decoding undoes encoding for every handle pair and 16- or 128-bit UUID, the width recovered from the length alone; exactly when the encoder refuses; also lines 340-394 |
| AttPdu.FindByTypeReqRoundTrip | libs/gattlib-master/bluez/bluez4/attrib/att.c:222-294 | the decoded value is the longest prefix that fits |
| AttPdu.WriteRoundTrip | libs/gattlib-master/bluez/bluez4/attrib/att.c:446-543 | writes: the longest prefix that fits; notifications and indications (lines 827-886): the whole value or nothing |
| AttPdu.WordsRoundTrip | libs/gattlib-master/bluez/bluez4/attrib/att.c:566-647 | read, blob, find-information and MTU requests, exactly from which length on |
| AttPdu.ReadRespRoundTrip | libs/gattlib-master/bluez/bluez4/attrib/att.c:649-700 | a read response starts the value, and a blob response for any offset continues what precedes that offset, without gap or overlap |
| AttPdu.GroupRespRoundTrip | libs/gattlib-master/bluez/bluez4/attrib/att.c:171-220 | for every element length and buffer: refused if not one element fits; otherwise decoding gives the longest prefix that fits if and only if the length is not cut by the octet it is sent in, and divides by zero if and only if the length is a multiple of 256; never more than the buffer |
| AttPdu.TypeRespRoundTrip | libs/gattlib-master/bluez/bluez4/attrib/att.c:396-444 | the same two equivalences for read-by-type responses, with the clipped length |
| AttPdu.FindInfoRespRoundTrip | libs/gattlib-master/bluez/bluez4/attrib/att.c:761-825 | format and longest fitting prefix come back, or the encoder refuses |
| AttPdu.RangesRoundTrip | libs/gattlib-master/bluez/bluez4/attrib/att.c:296-338 | the first (len - 1) / 4 ranges come back |
| AttPdu.FittingIsMaximal | libs/gattlib-master/bluez/bluez4/attrib/att.c:185-193 | the loop condition of the list encoders selects the longest fitting prefix |
| AttPdu.SplitFlat | libs/gattlib-master/bluez/bluez4/attrib/att.c:213-217 | splitting a concatenation of equal-length elements gives the elements |
| AttPdu.RequestLayouts | libs/gattlib-master/bluez/bluez4/attrib/att.c:116-142 | requests octet by octet, words least significant octet first; also lines 222-254, 446-469, 566-599 and 827-861 |
| AttPdu.ResponseLayouts | libs/gattlib-master/bluez/bluez4/attrib/att.c:702-719 | error responses octet by octet, and the opcodes of read and blob responses |
| AttPdu.ListLayouts | libs/gattlib-master/bluez/bluez4/attrib/att.c:171-196 | list responses: opcode, element length or format, then the fitting elements; also lines 396-420 and 761-787 |
| AttPdu.RangeLayout | libs/gattlib-master/bluez/bluez4/attrib/att.c:296-315 | a range is stored as its start and its end |
| AttPdu.FormatLengths | libs/gattlib-master/bluez/bluez4/attrib/att.c:806-810 | elements of find-information responses have 4 octets in format 0x01 and 18 in format 0x02 |
| Octets.PutU16 | libs/gattlib-master/bluez/bluez4/attrib/att.h:113-145 | the first octet holds the low half and the second the high half; reading back gives the word |
| AttBuffer.PutRangeReq | libs/gattlib-master/bluez/bluez4/attrib/att.c:116-142 | the caller's buffer starts with the request and is otherwise unchanged; the count returned is its length |
| AttBuffer.PutFindByTypeReq | libs/gattlib-master/bluez/bluez4/attrib/att.c:222-254 | the same for find-by-type-value requests, the count kept in 16 bits |
| AttBuffer.PutWrite | libs/gattlib-master/bluez/bluez4/attrib/att.c:446-469 | the same for writes, value cut to the buffer |
| AttBuffer.PutNotice | libs/gattlib-master/bluez/bluez4/attrib/att.c:827-861 | the same for notifications and indications |
| AttBuffer.PutWords | libs/gattlib-master/bluez/bluez4/attrib/att.c:582-599 | the same for blob and find-information requests |
| AttBuffer.PutReadResp | libs/gattlib-master/bluez/bluez4/attrib/att.c:649-665 | the same for read responses; the copy length is negative exactly for an empty buffer |
| AttBuffer.PutReadBlobResp | libs/gattlib-master/bluez/bluez4/attrib/att.c:667-682 | the same for blob responses; the copy length is negative exactly for an empty buffer or an offset behind the value |
| AttBuffer.PutGroupResp | libs/gattlib-master/bluez/bluez4/attrib/att.c:171-196 | the encoder's loop stores the fitting elements and nothing behind them changes |
| AttBuffer.PutTypeResp | libs/gattlib-master/bluez/bluez4/attrib/att.c:396-420 | the same for read-by-type responses with clipping; the copy length is negative exactly for buffers of fewer than two octets |
| AttBuffer.PutFindInfoResp | libs/gattlib-master/bluez/bluez4/attrib/att.c:761-787 | the same for find-information responses |
| AttBuffer.PutRanges | libs/gattlib-master/bluez/bluez4/attrib/att.c:296-315 | the same for ranges |
| AttBuffer.ReadList | libs/gattlib-master/bluez/bluez4/attrib/att.c:198-220 | the decoders with their division and their loop over the precomputed count: another opcode, a division by zero, or element-by-element splitting |
| AttBuffer.ReadRanges | libs/gattlib-master/bluez/bluez4/attrib/att.c:317-338 | the decoder of ranges |
| LongRead.LongReadIsExact | libs/gattlib-master/bluez/bluez4/attrib/gatt.c:398-521 | for every value and MTU of at least 23 the read delivers opcode 0x0B and exactly the value if and only if value and opcode fit 16 bits and one reply fits the 512-octet receive buffer |
| LongRead.Reassembles | libs/gattlib-master/bluez/bluez4/attrib/gatt.c:398-444 | from any prefix read so far the remaining rounds deliver the whole value; the octets left are the measure, also when the length is a multiple of MTU - 1 |
| LongRead.ReadIsCut | libs/gattlib-master/bluez/bluez4/attrib/gattrib.c:362-380 | outside that condition no number of rounds ever delivers the value |
| LongReadWitness.ErrorLooksLikeSuccess | libs/gattlib-master/bluez/bluez4/attrib/gatt.c:408-411 | for every server, every value longer than one reply and every error code: a legal run of the scheduler with nothing but this read, at whose end the user is told of success and given a proper prefix |
| LongRead.ReadLongData.OnFirst | libs/gattlib-master/bluez/bluez4/attrib/gatt.c:446-480 | read_char_helper on the record |
| LongRead.ReadLongData.OnNext | libs/gattlib-master/bluez/bluez4/attrib/gatt.c:398-444 | read_blob_helper on the record, with the 16-bit size |
| LongRead.ReadLongData.Destroy | libs/gattlib-master/bluez/bluez4/attrib/gatt.c:385-396 | one reference is given up; freed at zero |
| LongReadChain.RecordIsOwned | libs/gattlib-master/bluez/bluez4/attrib/gatt.c:385-521 | over every run of the scheduler: the record's count is the number of undestroyed commands with the read's id, at most one; freed exactly when none is left; never used after; user called at most once, not before the chain ended, and exactly once unless the read was cancelled or the connection freed; for every MTU of at least 23 |
| LongReadChain.ReadsAreHonest | libs/gattlib-master/bluez/bluez4/attrib/gatt.c:398-521 | end to end with any other traffic: a successful read carries a prefix of the value; an error is reported if and only if it ended the first round, a later one as success with what had been collected; success is complete if and only if no error ended the read or the failed round had asked at the end of the value |
| PrimaryDiscovery.AllServicesAreFound | libs/gattlib-master/bluez/bluez4/attrib/gatt.c:152-248 | however a conforming server splits its list, the procedure never fails and the user is given exactly that list, within one round trip more than there are services, without a 16-bit wrap |
| PrimaryDiscovery.MatchingServicesAreFound | libs/gattlib-master/bluez/bluez4/attrib/gatt.c:108-150 | the same for discovery by any UUID: exactly the ranges of the services whose UUID is the octets searched for, in order |
| PrimaryDiscovery.AllFailsExactly | libs/gattlib-master/bluez/bluez4/attrib/gatt.c:165-179 | against any peer: while it waits, the procedure divides by zero exactly on a reply whose element length reads 0, and reads behind an element exactly on a reply with an element of fewer than four octets |
| PrimaryDiscovery.AllTellsErrors | libs/gattlib-master/bluez/bluez4/attrib/gatt.c:160-161 | against any peer and any failure of the transport: a waiting procedure given a non-zero status tells exactly what it has found, with error 0 if the status is ATTR_NOT_FOUND (0x0A) and with that status otherwise; another opcode is told as 0x80 |
| PrimaryDiscovery.ByUuidTellsErrors | libs/gattlib-master/bluez/bluez4/attrib/gatt.c:119-126 | the same for discovery by UUID; a PDU without ranges ends it without error |
| PrimaryDiscovery.WidenIs | libs/gattlib-master/bluez/bluez4/lib/uuid.c:45-62 | a 16-bit UUID becomes octets 12 and 13 of the base UUID, written out |
| PrimaryDiscovery.RequestsAre | libs/gattlib-master/bluez/bluez4/attrib/gatt.c:72-106 | the octets of the requests: opcode 0x10 or 0x06, start, 0xFFFF, type 0x2800, and the value searched for |
| PrimaryDiscovery.ServiceLayout | libs/gattlib-master/bluez/bluez4/attrib/gatt.c:173-191 | an element is start handle, end handle and UUID, low octets first |
| PrimaryDiscovery.EncoderGroupsLegally | libs/gattlib-master/bluez/bluez4/attrib/att.c:171-196 | the repository's own encoder is such a server, so the theorems speak of something |
| PrimaryDiscovery.GroupRound | libs/gattlib-master/bluez/bluez4/attrib/gatt.c:152-218 | one legal reply ends the procedure with everything or strictly advances it |
| PrimaryDiscovery.RangesRound | libs/gattlib-master/bluez/bluez4/attrib/gatt.c:108-150 | the same for discovery by UUID |
| PrimaryDiscovery.DiscoverPrimary.OnGroup | libs/gattlib-master/bluez/bluez4/attrib/gatt.c:152-218 | primary_all_cb on the record |
| PrimaryDiscovery.DiscoverPrimary.Collect | libs/gattlib-master/bluez/bluez4/attrib/gatt.c:173-201 | its loop over the elements, and whether it reads behind them |
| PrimaryDiscovery.DiscoverPrimary.OnRanges | libs/gattlib-master/bluez/bluez4/attrib/gatt.c:108-150 | primary_by_uuid_cb on the record |
| CharDiscovery.FilteredDiscoveryIsFiltering | libs/gattlib-master/bluez/bluez4/attrib/gatt.c:250-356 | for all bounds and filters: although the loop stops at the first unwanted element, the procedure never fails and the user is given exactly the wanted characteristics in range, in order; bad bounds give the server's error; bounded round trips |
| CharDiscovery.CharsFailExactly | libs/gattlib-master/bluez/bluez4/attrib/gatt.c:270-287 | against any peer: while it waits, the procedure divides by zero exactly on a reply whose element length reads 0, and reads behind an element exactly on a reply with an element of neither 7 octets nor at least 21 |
| CharDiscovery.CharRound | libs/gattlib-master/bluez/bluez4/attrib/gatt.c:250-326 | one legal reply ends the procedure with everything or strictly advances the known part of the range |
| CharDiscovery.LookedMatches | libs/gattlib-master/bluez/bluez4/attrib/gatt.c:276-302 | what the loop keeps is the filter of what it looked at |
| CharDiscovery.CharsTellErrors | libs/gattlib-master/bluez/bluez4/attrib/gatt.c:262-269 | the errors told, as for services |
| CharDiscovery.CharRequestIs | libs/gattlib-master/bluez/bluez4/attrib/gatt.c:307-318 | the octets of the request: opcode 0x08, start, end, type 0x2803 |
| CharDiscovery.DeclarationLayout | libs/gattlib-master/bluez/bluez4/attrib/gatt.c:276-291 | an element is handle, properties, value handle and UUID |
| CharDiscovery.RoomForMore | libs/gattlib-master/bluez/bluez4/attrib/gatt.c:307 | stopping when `last + 1 == end` misses nothing, because a value attribute follows every declaration |
| CharDiscovery.EncoderAnswersLegally | libs/gattlib-master/bluez/bluez4/attrib/att.c:396-420 | responses of the repository's own encoder are legal |
| CharDiscovery.DiscoverChar.OnList | libs/gattlib-master/bluez/bluez4/attrib/gatt.c:250-326 | char_discovered_cb on the record |
| CharDiscovery.DiscoverChar.Collect | libs/gattlib-master/bluez/bluez4/attrib/gatt.c:276-302 | its loop with the break, and whether it reads behind the elements |
| DeviceStates.SetThenGet | libs/gattlib-master/common/gattlib_device_state_management.c:37-129 | setting a state changes every spelling of that id that differs in case only to what its own state machine says, and no other id |
| DeviceStates.FoldIff | libs/gattlib-master/common/gattlib_device_state_management.c:17-26 | ids are one exactly if they have equal length and at each position the same character or the two cases of one letter |
| DeviceStates.UpdatedIsValid | libs/gattlib-master/common/gattlib_device_state_management.c:46-129 | ids stay unique and no listed device is NOT_FOUND |
| DeviceStates.ReleasedOrForgotten | libs/gattlib-master/common/gattlib_device_state_management.c:131-147 | freeing the list releases or forgets each device once, and forgets none exactly if all are DISCONNECTED |
| DeviceStates.FreeDevicesCounted | libs/gattlib-master/common/gattlib_device_state_management.c:131-161 | counters stay exact when a list is freed |
| RefCounts.UnrefCounted | libs/gattlib-master/common/gattlib_device_state_management.c:149-161 | giving back one of the existing references keeps the counters exact and frees at the last |
| AdapterSafety.RunsAreExact | libs/gattlib-master/dbus/gattlib_adapter.c:17-83 | over every balanced run adapters and devices have exactly as many counts as references exist, and nothing freed is touched |
| AdapterTheorems.AdapterLifetimes | libs/gattlib-master/dbus/gattlib_adapter.c:715-768 | an adapter is listed exactly while its counter is positive, the counter is the number of references callers hold, and it is freed once |
| AdapterTheorems.DeviceLifetimes | libs/gattlib-master/common/gattlib_device_state_management.c:131-161 | a device's counter is its list membership plus held references, plus one if its adapter forgot it; freed once, when that sum is zero |
| AdapterTheorems.FinalRelease | libs/gattlib-master/dbus/gattlib_adapter.c:722-768 | the last release with all devices DISCONNECTED drops each list reference once, frees the devices nobody holds, and leaves all others alone |
| AdapterTheorems.ForgottenExactlyWhenStranded | libs/gattlib-master/common/gattlib_device_state_management.c:131-147 | devices are forgotten exactly if a last bare unref finds one that is not DISCONNECTED; close never does it |
| AdapterTheorems.ForgottenIsLeaked | libs/gattlib-master/common/gattlib_device_state_management.c:131-147 | a forgotten device is never freed, over every continuation |
| AdapterTheorems.StrandedDevice | libs/gattlib-master/dbus/gattlib_adapter.c:722-768 | a run the library makes: the opener closes while a discovery callback holds the adapter, the callback connects a device and lets go; nobody holds anything and the device is not freed |
| AdapterTheorems.StatesAreIndependent | libs/gattlib-master/common/gattlib_device_state_management.c:37-129 | after any balanced run each id of each live adapter has the state its own calls alone lead to |
| AdapterTheorems.DeviceIdsAreUnique | libs/gattlib-master/common/gattlib_device_state_management.c:46-129 | in every reachable state ids are unique and no listed device is NOT_FOUND |
| AdapterTheorems.SetStateCodes | libs/gattlib-master/common/gattlib_device_state_management.c:46-129 | after any balanced run a state change is refused exactly on an unlisted adapter, and for the removal of a device that is busy by its own calls |
| AdapterTheorems.CloseCodes | libs/gattlib-master/dbus/gattlib_adapter.c:662-713 | after any balanced run closing is ADAPTER_CLOSE exactly for an unlisted adapter, BUSY exactly if some device is busy by its own calls, and succeeds otherwise, also with devices listed that are all DISCONNECTED |
| AdapterTheorems.UnambiguousExactlyInTime | libs/gattlib-master/dbus/gattlib_adapter.c:34-82 | adapter ids stay unique if and only if no open publishes an adapter that was listed meanwhile |
| AdapterTheorems.DoubleOpen | libs/gattlib-master/dbus/gattlib_adapter.c:34-82 | two overlapping opens list one adapter twice |
| AdapterTheorems.NamesAreCut | libs/gattlib-master/dbus/gattlib_adapter.c:18-31 | the path is /org/bluez/ and the first eight characters of the name, hci0 without one; two names mean the same adapter if and only if those agree up to case |
| GattlibObject.ConnectedIsExact | libs/gattlib-master/common/gattlib_common_adapter.c:153-177 | although every adapter overwrites the answer, it is whether the device is listed as CONNECTED |
| GattlibObject.Gattlib.Compare | libs/gattlib-master/common/gattlib_common_adapter.c:15-21 | stricmp is zero exactly for strings equal up to case |
| GattlibObject.Gattlib.FromId | libs/gattlib-master/common/gattlib_common_adapter.c:30-45 | the first listed adapter with the id |
| GattlibObject.Gattlib.Search | libs/gattlib-master/common/gattlib_device_state_management.c:17-26 | the first device with the id |
| GattlibObject.Gattlib.DeviceGetState | libs/gattlib-master/common/gattlib_device_state_management.c:37-44 | the state of the id, NOT_FOUND if absent |
| GattlibObject.Gattlib.DeviceSetState | libs/gattlib-master/common/gattlib_device_state_management.c:46-129 | creation, change, removal and its refusal, with the code returned |
| GattlibObject.Gattlib.AreDisconnected | libs/gattlib-master/common/gattlib_device_state_management.c:163-178 | true exactly if all are DISCONNECTED |
| GattlibObject.Gattlib.DevicesFree | libs/gattlib-master/common/gattlib_device_state_management.c:131-147 | the freeing loop |
| GattlibObject.Gattlib.AdapterUnref | libs/gattlib-master/dbus/gattlib_adapter.c:722-768 | the step of the state machine |
| GattlibObject.Gattlib.AdapterClose | libs/gattlib-master/dbus/gattlib_adapter.c:662-713 | ADAPTER_CLOSE, BUSY or release |
| GattlibObject.Gattlib.OpenListed | libs/gattlib-master/dbus/gattlib_adapter.c:34-42 | first section of open: a listed adapter gains a reference |
| GattlibObject.Gattlib.OpenNew | libs/gattlib-master/dbus/gattlib_adapter.c:71-80 | second section of open: a new adapter with one reference is listed |
| GattlibObject.Gattlib.DeviceIsValid | libs/gattlib-master/common/gattlib_common_adapter.c:85-106 | found exactly if some listed adapter lists the device |
| GattlibObject.Gattlib.IsConnected | libs/gattlib-master/common/gattlib_common_adapter.c:153-177 | the state last seen is CONNECTED |
| Address.ParseUndoesPrint | libs/gattlib-master/bluez/bluez4/lib/bluetooth.c:51-99 | str2ba after ba2str and strtoba after batostr are the identity |
| Address.PrintNormalizes | libs/gattlib-master/bluez/bluez4/lib/bluetooth.c:77-99 | ba2str after str2ba upper-cases an address and gives the null address for anything else |
| Address.SameAddress | libs/gattlib-master/bluez/bluez4/lib/bluetooth.c:83-99 | two texts are one address exactly if they differ in case only |
| Address.WellFormedIs | libs/gattlib-master/bluez/bluez4/lib/bluetooth.c:106-129 | an address is 17 characters, colons at every third place and listed hexadecimal digits elsewhere |
| Address.PrintedOctets | libs/gattlib-master/bluez/bluez4/lib/bluetooth.c:51-81 | ba2str prints the last octet first and batostr the first one, each as two upper-case digits |
| Address.Bachk | libs/gattlib-master/bluez/bluez4/lib/bluetooth.c:106-129 | accepts exactly six colon-separated pairs of hexadecimal digits |
| Address.ReadAddress | libs/gattlib-master/bluez/bluez4/lib/bluetooth.c:83-99 | str2ba on the caller's buffer, with its code |
| Address.Baswap | libs/gattlib-master/bluez/bluez4/lib/bluetooth.c:41-49 | reverses into another buffer; into itself it mirrors the second half |
| Address.PairOnly | libs/gattlib-master/bluez/bluez4/lib/bluetooth.c:93-94 | strtol reads exactly the pair |
| Throttle.FloatIsExact | src/throttleinput.c:12-14 | for every 16-bit input single-precision rounding and truncation give the integer percentage |
| Throttle.Percent | src/throttleinput.c:12-14 | the percentage is in 0..100 and is the floor of the exact quotient |
| Throttle.PercentIsAntitone | src/throttleinput.c:12-14 | antitone over all 16-bit inputs, with both end stops |
| Throttle.EveryPercentIsReached | src/throttleinput.c:12-14 | every percentage has an input |
| Throttle.PrintedWasWritten | src/main.c:19-31 | over every interleaving printed values are in 0..100, no two adjacent ones are equal, and they are a subsequence of the percentages of the axis-2 events, given by the events alone |
| Throttle.WriterFollowsJoystick | src/throttleinput.c:33-63 | over every interleaving what is written is 0 and then the percentage of exactly the axis-2 events before the first press of button 0 and before a read error, in order; the position is the last of them; the program is told to stop if and only if a press precedes any read error |
| Throttle.LoopEndsOnPress | src/main.c:19-31 | the main loop ends only after such a press, and at its next test after one |
| Throttle.SubsequencePositions | src/main.c:19-31 | a subsequence is the values at strictly rising positions |
| Throttle.ObservationIsCurrent | src/main.c:21-27 | a pass of the loop leaves it with the value last written |
| Throttle.Cockpit.HotasInput | src/throttleinput.c:33-63 | one event of the writer |
| Throttle.Cockpit.PrintChange | src/main.c:21-27 | one locked pass of the reader |

## Left out

- Event registrations, `g_attrib_register` and the event loop of `received_data`: what their handlers do is an arbitrary script run before the response is handled.
- The read watch: data may be received at any time while the object lives; hang-up on the read side and the encryption check are not modelled.
- Destroy notifiers: they make no calls back into the scheduler.
- A non-zero id passed to `g_attrib_send` by anything but the result function of the command just answered (`gatt.c` is the only such caller).
- Timeouts whose callbacks resubmit without end: the scripts of a timeout are finite, so its loop ends; real clock time is not modelled.
- Allocation failure, logging, debug hooks and the encoders' null-pointer checks.
- The octets a decoder of `att.c` reads behind the end of a short PDU: they read as zero, as in the cleared receive buffer; reads behind copied elements are modelled.
- LongReadChain.RecordIsOwned: assumes that fewer than 2^32 commands were accepted, so ids have not wrapped around.
- LongReadChain.ReadsAreHonest: the same, and an MTU of at most 512 with values that fit 16 bits, outside of which LongReadIsExact shows the read itself to be cut; `g_attrib_send` refusing the next round inside a helper cannot happen there because the connection is not stale.
- `gatt_read_char` with a starting offset above zero, read by UUID, write, MTU exchange and find-information procedures: one request and its reply each, or (the offset) not carried into later rounds by the code.
- AttPdu.GroupRespRoundTrip: buffers of at most 65535 octets, as are those of RangesRoundTrip, PutGroupResp and PutRanges; the two encoders count in 16 bits and overrun longer buffers. MTUs are 16-bit numbers.
- CharDiscovery.FilteredDiscoveryIsFiltering: the server's declarations are each followed by a value attribute, as the specification demands; UUIDs are compared as 128-bit octet strings rather than through their text.
- The plain decoders of single requests and values are functions, since they only read; encoders of one-octet PDUs are omitted.
- Closing an adapter that is scanning, scan threads and condition variables, and everything that talks to D-Bus: only the locked sections of open, close, ref and unref are modelled, each as one step, and the bus call of open may fail by never publishing.
- Reuse of the address of a freed adapter or device: addresses are numbered by allocation.
- `Throttle`: the joystick device, usleep and the BLE sender thread, which reads the position without the mutex; opening or reading the joystick may fail at any time.
- `btio.c`, `hci.c`, SDP record parsing, UUID text, the SimpleBLE wrappers, the Python bindings, `scan.c`, examples and gatttool: socket options, tables, forwarding or calls into libraries that are not part of this model.
