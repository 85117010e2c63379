# Verified model of the GR712RC/GR740 emulator service

The repository runs RTEMS guests for LEON boards in QEMU and puts a web page in front of them. An
adapter service (`service/adapter`) drives QEMU over QMP and relays SpaceWire traffic, the page
(`ui`) folds the adapter's messages into what the user sees, and small demo programs (`apps`,
`tools`) give the links something to carry. This project models the code where those parts meet and
proves what it keeps over every run.

The model has six parts.

1. **Control plane.** `Qmp` is the QMP connection: one wire, a reader that sorts lines into an event
   queue and a reply queue, a command lock. `Server` holds the session fields and the page's fold of
   messages, `Session` interleaves everything that writes them (request handlers, event pump, exit
   watcher, subscribers, QEMU itself), `Convergence` and `Limits` say when the status is right and
   exactly when it is not, `Requests` what is admitted, sent and answered. `SessionObject` is the
   adapter's own objects, each method proved to make one move of the transition system.
2. **SpaceWire.** `Framing` is the wire format and its parser; `Tap` and `TapFlow` interleave
   connections, pumps and subscribers of one tap; `TapObject` is the tap's code over streams, and
   `TapSession` its handlers at work together, each stretch one move; `EchoPeer` is the peer.
3. **Descriptor rings.** `RxRing` and `TxRing` interleave driver and DMA device, `RxDriver` and the
   driver class in `TxRing` are the C code over arrays. `Echo` runs rings, tap and peer together.
4. **Dumps and their readers.** `MemoryDump`, `MemoryView` (memory, from QEMU's print to the page's
   table), `RegisterDump`, `RegisterReader` (the register reader), `RegisterPrint`, `RegisterCpus`
   (what it makes of a printed dump), over the matchers in `Text`; `Samples` reads two texts.
5. **GPIO.** `Gpio` is the bench and the waveform pane, `Waveform` says when the drawing is true.
6. **Terminal text.** `UartText` is the line splitter and its window, `Decimal` the demo's printer.

A step of a transition system is the code between two suspension points in the adapter, and in the
driver a check of a descriptor, a store to the shared payload or a hand-over. The device is an
environment step: if the descriptor at its index has EN set it writes the packet there, stores the
length, clears EN and advances, wrapping on WR.

Theorems that quantify over runs start from the initial state and allow every move at every moment,
unless the name of the run says what it excludes: a `TameRun` has QEMU alive and a STOP or RESUME
event exactly for each change of run state; in a `CalmRun` also every reset that succeeds finds the
guest running or a STOP still on its way; `PollsUndisturbed` has no delivery inside a scan.

Where the code and its documentation differ, the code is modelled:

- `docs/07-adapter-api.md:272` says an exit code is present only when the status is `exited`. An event
  or reply that is still in flight when the exit is reported overwrites the status and leaves the exit
  code (`Limits.ExitOverwritten`); `Limits.ExitIsFinalIffNothingWasLeft` is the exact condition.
- `docs/07-adapter-api.md:145` rules out an exit while paused. The exit watcher does not look at that
  (`Limits.ExitWhilePaused`, `Limits.OnlyTheWatcherExits`).
- `reset` (`service/adapter/qemu.py:248-255`) reports `running` although it sends no `cont` to a paused
  guest (`Limits.ResetOfPausedGuest`), also if the session was running when the reset was requested
  (`Limits.ResetOvertakenByPause`). `Convergence.AgreesIffResetsFit` is the exact condition.
- The docstring at `service/adapter/qemu.py:531` shows addresses with `0x`; the expression at line 523
  does not match those (`MemoryDump.PrefixedAddressIsNotRead`).
- `docs/07-adapter-api.md:418` promises bytes for unaligned reads. Only the last one to three bytes
  come as bytes, and the page shows them as full words (`MemoryView.ShownIffWholeWords`).
- `PinTrace` assumes a history without holes. `Waveform.DrawnIsTrueIffHiddenLaterIsEven` is the exact
  condition under which the 200-entry limit does no harm.
- The transmit ring reuses one payload buffer and does not check EN
  (`TxRing.LateDeviceSendsTheWrongCounter`). `TxRing.StreamIsRightIffNoOverlap` is the exact condition
  under which that is safe.
- A poll whose scan is overtaken by deliveries returns packets out of order
  (`RxRing.DisturbedScanReorders`). `RxRing.ArrivalOrderIffNoneOvertaken` is the exact condition.
- The driver lets the device accept packets of up to 4096 bytes into buffers of 64
  (`RxDriver.WaitingPacketIsOverwritten`). `RxRing.IntactIffSpared` is the exact condition under which
  a delivery harms no waiting packet; packets of at most 64 bytes never do.

## Model

| member | source | states |
|---|---|---|
| `Qmp.RepliesPairUp` | service/adapter/qemu.py:67-96 | Wherever events fall on the wire, the k-th task to take the command lock gets the k-th reply QEMU wrote, or the disconnect error once QEMU has hung up and replies have run out. |
| `Qmp.OneCommandOutstanding` | service/adapter/qemu.py:91-98 | Until end of file at most one command lies between the lock and its reply, that of the task that took the lock last and holds it; after end of file a pending command finds the disconnect error, unless an earlier one has taken it. |
| `Qmp.SecondCommandWaitsForever` | service/adapter/qemu.py:80-98 | A command issued after another has taken the disconnect error never gets a reply: its task keeps the lock in every continuation. |
| `Qmp.EventsInWireOrder` | service/adapter/qemu.py:103-108 | The consumer sees a prefix of the events in wire order, all of them once the stream has ended; after end of file the end marker is always there to be met. |
| `Qmp.ReadKeepsAhead` | service/adapter/qemu.py:67-78 | Sorting a line into its queue changes neither the sequence of replies nor that of events still ahead of their consumers. |
| `Qmp.AdvanceKeepsInv` | service/adapter/qemu.py:67-108 | Every step of QEMU, the reader, the tasks and the consumer keeps the accounting of commands, replies, events and end marker. |
| `Server.ShowAllAppend` | ui/store.jsx:216-224 | The page's fold over a queue grows by one message at a time. |
| `Server.BroadcastReplays` | service/adapter/qemu.py:325-350 | A change of the server that is announced by one message to everybody leaves every page on course to the new status, and to the new exit code if it had the old one. |
| `Session.DoKeepsSound` | service/adapter/qemu.py:91-98 | Over handlers, pump, watcher and QEMU together, exactly the task inside the lock has a command out. |
| `Session.DoKeepsInStep` | service/adapter/qemu.py:325-350 | Every move of anybody keeps all subscribers on course to the server's current fields. |
| `Session.EveryPageReplaysTheStatus` | service/adapter/main.py:336-347 | In every interleaving, exits, failures and resets included, folding the snapshot sent at subscription and all queued messages gives exactly the server's status, and its exit code for a page that started with the right one. |
| `Convergence.DoKeepsAligned` | service/adapter/qemu.py:234-246 | In a calm run the last announcement still ahead is QEMU's run state, a change not yet written by its handler is the one the handler will write, and otherwise the status is already right. |
| `Convergence.ResetKeepsAlignedIff` | service/adapter/qemu.py:248-255 | A reset that reports success keeps that, and leaves no false report behind, if and only if the guest is running or a STOP is still ahead. |
| `Convergence.AgreesIffResetsFit` | service/adapter/qemu.py:248-255 | In every run with QEMU alive and reporting its changes, the status is QEMU's run state at every settled moment if and only if every reset that reported success found the guest running or a STOP still ahead. |
| `Convergence.StatusConverges` | service/adapter/qemu.py:399-409 | In every calm run, whenever no stop or cont is unsettled and no STOP or RESUME is undelivered, the status of a started session is QEMU's real run state, whatever else is pending. |
| `Convergence.ChoreShrinksWork` | service/adapter/qemu.py:67-108 | Every answer of QEMU, whatever it says, every turn of the reader, of the lock's holder and of the pump brings the work in flight nearer to its end. |
| `Convergence.AgreementIsReached` | service/adapter/qemu.py:234-255 | From every moment of a calm run of a started session, what is in flight is dealt with in a bounded number of moves, in any order and whatever QEMU replies; where no such move is left nothing is in flight and the status is QEMU's. |
| `Limits.LateEventOverwrites` | service/adapter/qemu.py:399-409 | Quiescence is needed: a start, a pause and one late event give a session reported running over a stopped guest. |
| `Limits.ResetOfPausedGuest` | service/adapter/qemu.py:248-255 | A run from the start: a reset of a paused session ends with running reported over a stopped guest and nothing left in flight. |
| `Limits.ResetOvertakenByPause` | service/adapter/qemu.py:248-255 | So does a reset requested of a running session with nothing in flight, if a pause takes the lock first. |
| `Limits.OnlyTheWatcherExits` | service/adapter/qemu.py:421-438 | Whatever the status, paused included, it becomes exited by the exit watcher and by nothing else. |
| `Limits.ExitWhilePaused` | service/adapter/qemu.py:421-438 | A run from the start in which a paused session with nothing in flight becomes exited, for every exit status of the process. |
| `Limits.ExitIsFinal` | service/adapter/qemu.py:421-438 | If nothing that writes the status was in flight when the exit was reported, every continuation stays exited with the same exit code. |
| `Limits.ResidueOverwritesExit` | service/adapter/qemu.py:399-438 | If something was, there is a continuation that overwrites the exit. |
| `Limits.ExitIsFinalIffNothingWasLeft` | service/adapter/qemu.py:421-438 | In every run, a reported exit is the last word if and only if no STOP or RESUME was waiting for the pump and no success for a handler that writes the status. |
| `Limits.ExitOverwritten` | service/adapter/qemu.py:405-409 | A run in which the session ends up running with exit code 0. |
| `Requests.PauseOrResume` | service/adapter/qemu.py:234-246 | Of a session that is running or paused exactly one of pause and resume is admitted, pause if it is running, and carrying it out changes the status to the other. |
| `Requests.StartPauseResume` | service/adapter/qemu.py:193-246 | A run from the start in which a start, a pause and a resume are all served; it ends running over a running guest with nothing in flight. |
| `Requests.ResetGoesOnIffExited` | service/adapter/qemu.py:248-255 | A successful reply to system_reset leads to cont if and only if the session has exited by then; otherwise, and after cont, the reset is done and the session running. |
| `Requests.NothingNewIsSaid` | service/adapter/qemu.py:405-415 | A RESUME on a running session and every event but STOP and RESUME change nothing and are told to nobody. |
| `Requests.StartedIffNotCreated` | service/adapter/qemu.py:225-227 | In every run the session has a start time exactly when its status is not created. |
| `Requests.RequestsGetTheirOwnAnswer` | service/adapter/qemu.py:91-101 | In every run a request that ends in success has sent its own command, a query exactly its line, and answers with exactly the text QEMU wrote in reply to that command. |
| `SessionObject.QmpClient.ReadLoop` | service/adapter/qemu.py:67-83 | Over all QEMU writes: the event queue gets the events in order and the end marker, the reply queue the replies in order and the disconnect error. |
| `SessionObject.ReadingToTheEnd` | service/adapter/qemu.py:67-83 | The transition system's reader, left to run to end of file, leaves the queues that the loop leaves. |
| `SessionObject.QemuSession.constructor` | service/adapter/qemu.py:316-319 | A new session is the server of the transition system's initial state. |
| `SessionObject.QemuSession.Broadcast` | service/adapter/qemu.py:325-350 | Every subscriber's queue gets the message once and nothing else changes. |
| `SessionObject.QemuSession.Begin` | service/adapter/qemu.py:193-252 | start is let through from created only, pause from running only, resume from paused only, reset and queries from anything but created; each sends its own command, and the rest is refused. |
| `SessionObject.QemuSession.Finish` | service/adapter/qemu.py:225-255 | Whatever the request and the reply, a handler that execute() returns to makes exactly the transition system's move, sends a further command exactly if that leaves it waiting for the lock, and keeps every page on course. |
| `SessionObject.QemuSession.PumpEvent` | service/adapter/qemu.py:399-415 | A turn of the pump makes exactly the transition system's move and keeps every page on course. |
| `SessionObject.QemuSession.WatchExit` | service/adapter/qemu.py:421-438 | The exit watcher makes exactly the transition system's move and keeps every page on course. |
| `SessionObject.QemuSession.Subscribe` | service/adapter/main.py:336-343 | The new queue is empty and last in line, the snapshot is the status of that same moment, and the page is on course from there. |
| `SessionObject.QemuSession.SendNext` | service/adapter/main.py:344-347 | The message sent is the oldest of that subscriber's queue, and the page folds it in. |
| `SessionObject.QemuSession.Unsubscribe` | service/adapter/qemu.py:321-323 | Exactly that subscriber goes, its first entry, and an unknown queue changes nothing. |
| `SessionObject.QueuedForAPage` | service/adapter/main.py:336-347 | At every moment of a session object's life, folding what is queued for a page gives the object's status. |
| `Framing.ParseSplits` | service/adapter/spw.py:168-175 | What is parsed, framed again, and what is left make up the stream byte for byte; all packets are within the cap and no legal frame starts the remainder. |
| `Framing.ParseAfterFrames` | service/adapter/spw.py:168-175 | Legal frames in front are parsed one for one whatever follows them, so where the stream is cut makes no difference. |
| `Framing.ParseIsLongest` | service/adapter/spw.py:168-175 | Every run of legal frames at the front of a stream is a prefix of the parse. |
| `Framing.ParseFrameAll` | service/adapter/spw.py:168-186 | Parsing the frames of any packets within the cap, empty ones included, gives back those packets and nothing else. |
| `Framing.LongestPacket` | service/adapter/spw.py:31 | A packet of 65536 bytes is taken, one of 65537 stops the parser in front of it. |
| `Framing.FrameAllInjective` | service/adapter/spw.py:170-181 | Equal byte streams of frames carry equal packets. |
| `AsyncQueue.Queue.PutNowait` | service/adapter/spw.py:221-227 | A full bounded queue stays as it is and the caller is told; any other gains the item at the end. |
| `Tap.DoKeepsRegistered` | service/adapter/spw.py:116-153 | The registered writers are exactly the connections whose handler is in its pump, after any accept, rejection, forward or cleanup. |
| `Tap.DoKeepsBalanced` | service/adapter/spw.py:116-153 | Connected notes less disconnected notes stay equal to the handlers still at work. |
| `TapFlow.OnePumpPerSide` | service/adapter/spw.py:116-153 | In every run each side has at most one pump, the registered writer is its connection, and a cleanup removes only its own registration and leaves the other side alone. |
| `TapFlow.NotesBalance` | service/adapter/spw.py:116-153 | In every run connected minus disconnected notes of a side is the number of its active and closing handlers. |
| `TapFlow.PublishedLagsByAtMostOne` | service/adapter/spw.py:168-186 | In every run the packets published for a direction are those parsed from it, in order, all but at most the last. |
| `TapFlow.BytesThroughTheTap` | service/adapter/spw.py:168-181 | In every run, a connection's arrivals parse to a gapless block of its side's packets, and the bytes it was sent are exactly the frames of a gapless block of the opposite side's packets, up to the present while it is open. |
| `TapFlow.SubscribersSeeInOrder` | service/adapter/spw.py:103-106 | In every run a subscriber's queue holds at most 1024 messages, it gets a subsequence of what was published since it joined, and all of it unless its queue was once full. |
| `TapFlow.MissedOnlyWhenFull` | service/adapter/spw.py:221-227 | Whatever happens, a subscriber misses a message only if 1024 are waiting for it, and then that one alone. |
| `TapObject.StreamReader.ReadExactly` | service/adapter/spw.py:170-175 | However the bytes arrive, exactly the first n of the stream, or a failure if it ends before. |
| `TapObject.StreamReader.ReadFrame` | service/adapter/spw.py:170-175 | A whole legal frame is taken off the stream with its header bytes; otherwise the pump ends. |
| `TapObject.SpwTap.Broadcast` | service/adapter/spw.py:221-227 | Every subscriber is offered the message, dropped exactly where the queue is full. |
| `TapObject.SpwTap.Subscribe` | service/adapter/spw.py:103-106 | A fresh empty bounded queue joins, the others are unchanged. |
| `TapObject.SpwTap.Connect` | service/adapter/spw.py:116-123 | A connection is accepted exactly when its side is free; a rejected one is closed and leaves writer and queues alone. |
| `TapObject.SpwTap.Leave` | service/adapter/spw.py:127-133 | The side is free again and its connection closing, the other side untouched. |
| `TapObject.SpwTap.Relay` | service/adapter/spw.py:177-186 | The frame goes to the other side exactly if that is connected and open, and is published in either case. |
| `TapObject.SpwTap.Turn` | service/adapter/spw.py:168-186 | One turn takes one whole frame off the stream, sends on the same bytes, publishes its packet, or ends the pump at the first thing that is not a legal frame. |
| `TapObject.SpwTap.Pump` | service/adapter/spw.py:159-193 | For every stream and segmentation: exactly the longest run of legal frames is published and, to an open target, sent on byte for byte. |
| `TapObject.RoomForAll` | service/adapter/spw.py:221-227 | A subscriber with room for all packets gets all of them in order. |
| `TapSession.Session.Accept` | service/adapter/spw.py:116-123 | A handler from its start to the pump, or to its refusal, makes exactly the transition system's move. |
| `TapSession.Session.Forward` | service/adapter/spw.py:177-186 | Sending a frame on, up to the wait for drain or the publication, makes exactly the transition system's move. |
| `TapSession.Session.Drained` | service/adapter/spw.py:181-186 | The publication after drain makes exactly the transition system's move. |
| `TapSession.Session.Leave` | service/adapter/spw.py:127-131 | The cleanup up to the wait for the close makes exactly the transition system's move. |
| `TapSession.Session.Closed` | service/adapter/spw.py:131-134 | The rest of the cleanup makes exactly the transition system's move. |
| `TapSession.Session.Unsubscribe` | service/adapter/spw.py:108-110 | Exactly that subscriber goes, and an unknown queue changes nothing. |
| `TapSession.SentIsGapless` | service/adapter/spw.py:168-186 | At every moment of a tap object's life, the bytes it has written to a connection are the frames of a gapless block of the opposite side's packets, up to the present while the connection is open. |
| `EchoPeer.RecvExact` | tools/spw-echo-peer.py:23-30 | However recv cuts the stream, the first n bytes, or what there was before it ended. |
| `EchoPeer.ReadFrame` | tools/spw-echo-peer.py:35-47 | A complete frame of any length is taken off the stream; otherwise the peer stops, telling a close from a short read. |
| `EchoPeer.Answer` | tools/spw-echo-peer.py:49-59 | A payload of fewer than four bytes is answered by itself; a longer one by the same bytes with the last four, as a big-endian number, larger by inc, and not at all if that leaves 32 bits. |
| `EchoPeer.ShortPacketsComeBack` | tools/spw-echo-peer.py:55-61 | For every increment, frames of packets shorter than four bytes come back byte for byte. |
| `EchoPeer.EveryPacketIsAnswered` | tools/spw-echo-peer.py:33-61 | If no counter plus inc leaves 32 bits, every packet is answered, in order and with its length, short ones unchanged and the others but for their counter. |
| `EchoPeer.BumpCounter` | tools/spw-echo-peer.py:50-51 | The answer's counter, read as the app reads it, is the payload's plus inc. |
| `EchoPeer.Serve` | tools/spw-echo-peer.py:33-61 | For every stream and segmentation: each complete frame is answered in turn, up to the end of the stream or the first counter that overflows, and the peer ends in overflow if and only if there is a packet of at least four bytes whose counter plus inc leaves 32 bits. |
| `Echo.PageShowsTheCounter` | ui/store.jsx:152-157 | For every packet the counter the page takes from the hex text is the counter in the packet, and it shows none exactly if the packet has fewer than four bytes. |
| `Echo.RoundTrip` | tools/spw-echo-peer.py:33-61 | Through tap, peer and tap, as the code of each is proved to map its stream, any list of packets comes back in order, each with one added to its counter. |
| `Echo.ThroughTapAndPeer` | service/adapter/spw.py:116-193 | Running both pumps and the peer on a stream from QEMU writes back to QEMU what those maps say. |
| `Echo.SendCounters` | apps/06-grspw-echo/grspw_echo.c:249-254 | Running the driver with a device that transmits each packet in time puts the counters from 0 on the wire. |
| `Echo.ReceiveCounters` | apps/06-grspw-echo/grspw_echo.c:262-269 | Whenever the app drains its ring, but before the ring overflows, it decodes every delivered packet, in order. |
| `Echo.Demo` | apps/06-grspw-echo/grspw_echo.c:249-276 | Running send, tap, peer, tap, delivery and drain on their own code, for any number of counters below 2^32 - 1 and any schedule of drains, the app decodes each counter plus one, in order. |
| `Echo.EchoAddsOne` | apps/06-grspw-echo/grspw_echo.c:160-182 | For every counter below 2^32 - 1 the echo fits a receive buffer and reads counter + 1, in the app and on the page. |
| `Echo.LastCounterIsNotEchoed` | tools/spw-echo-peer.py:51 | The one counter left, 2^32 - 1, gets no answer. |
| `Echo.EveryCounterComesBackPlusOne` | apps/06-grspw-echo/grspw_echo.c:97-102 | Any burst of echoes that fits the free receive descriptors waits in the ring in order, behind what was there, and each holds its counter plus one. |
| `Echo.Passes` | tools/spw-echo-peer.py:49-59 | After k passes the counter has grown by k times inc and every other byte is the same. |
| `RxRing.DoKeepsInv` | apps/06-grspw-echo/grspw_echo.c:185-224 | Every delivery, check and recycle keeps custody: each accepted packet is in one descriptor or has been returned once. |
| `RxRing.NoPacketLost` | apps/06-grspw-echo/grspw_echo.c:185-224 | With the device stepping between any two checks and packets of any length it accepts: a packet accepted and not returned is in exactly one descriptor, with its length, and the device does not own that. |
| `RxRing.PacketsStayIntact` | apps/06-grspw-echo/grspw_echo.c:109-224 | In every run whose deliveries meet no waiting packet's bytes, every packet has, from its completion to its recycle, the bytes with which it came. |
| `RxRing.IntactIffSpared` | apps/06-grspw-echo/grspw_echo.c:109-150 | A delivery of n bytes leaves all waiting packets as they are, whatever the bytes, if and only if the place it goes to has no byte in common with one of them. |
| `RxRing.WhatIsAccepted` | apps/06-grspw-echo/grspw_echo.c:109-150 | A descriptor that the device owns takes packets of up to 4096 bytes, from the start of a buffer of 64. |
| `RxRing.ControlWords` | apps/06-grspw-echo/grspw_echo.c:73-75 | The words in memory before and after a delivery, bit for bit. |
| `RxRing.SmallStepsSpare` | apps/06-grspw-echo/grspw_echo.c:109 | Deliveries of at most 64 bytes never meet a waiting packet. |
| `RxRing.LongPacketIsOverwritten` | apps/06-grspw-echo/grspw_echo.c:109-150 | A run in which the packet after one of 65 bytes overwrites its last byte. |
| `RxRing.ReturnedOnce` | apps/06-grspw-echo/grspw_echo.c:185-224 | In every run no packet is returned twice, and a returned one is in no descriptor but the one being worked on. |
| `RxRing.ArrivalOrderIffNoneOvertaken` | apps/06-grspw-echo/grspw_echo.c:185-201 | In every interleaving of deliveries and checks, polls return packets in order of arrival if and only if no check past the first of its scan met more waiting packets than descriptors passed. |
| `RxRing.CompletedAreACyclicRun` | apps/06-grspw-echo/grspw_echo.c:185-224 | And as long as the order holds, the completed descriptors are the cyclic run from the tail to the device's index, with the one being worked on. |
| `RxRing.PollsReturnInArrivalOrder` | apps/06-grspw-echo/grspw_echo.c:185-201 | In particular the order holds if no delivery falls inside a scan. |
| `RxRing.DisturbedScanReorders` | apps/06-grspw-echo/grspw_echo.c:190-198 | Two deliveries inside one scan suffice for the second packet to be returned before the first. |
| `RxDriver.Driver.constructor` | apps/06-grspw-echo/grspw_echo.c:124-137 | After the reset every descriptor is the device's and only the last one wraps. |
| `RxDriver.Driver.DeviceDeliver` | apps/06-grspw-echo/grspw_echo.c:78-83 | The device's writes to descriptor and buffer have the effect of the transition system's delivery. |
| `RxDriver.Driver.PollRx` | apps/06-grspw-echo/grspw_echo.c:185-201 | The first completed descriptor at or after the tail, going round; -1, with the tail where it was, if all 32 are the device's; and how many were looked at, never more than 32. |
| `RxDriver.Driver.Poll` | apps/06-grspw-echo/grspw_echo.c:185-201 | With packets waiting in order, the descriptor of the oldest one, and -1 if and only if none waits. |
| `RxDriver.PollIsARun` | apps/06-grspw-echo/grspw_echo.c:185-201 | A poll is a run of the transition system, of at most 32 checks. |
| `RxDriver.Driver.PayloadToUint32` | apps/06-grspw-echo/grspw_echo.c:203-217 | The trailing big-endian counter of the packet that the last poll returned, 0 if it is shorter than four bytes. |
| `RxDriver.Driver.Recycle` | apps/06-grspw-echo/grspw_echo.c:219-224 | The descriptor is the device's again, with WR only on the last one. |
| `RxDriver.Driver.DrainOne` | apps/06-grspw-echo/grspw_echo.c:262-269 | One turn of the loop decodes and recycles the oldest waiting packet, or ends with none waiting. |
| `RxDriver.Driver.Drain` | apps/06-grspw-echo/grspw_echo.c:262-269 | The drain loop ends and has decoded every waiting packet, oldest first. |
| `RxDriver.BurstFillsTheRoom` | apps/06-grspw-echo/grspw_echo.c:97-102 | A burst is accepted up to exactly the number of free descriptors, in order. |
| `RxDriver.WaitingPacketIsOverwritten` | apps/06-grspw-echo/grspw_echo.c:109-150 | A run in which a packet of 65 bytes overwrites the packet that waits in the next buffer. |
| `TxRing.StreamIsRightIffNoOverlap` | apps/06-grspw-echo/grspw_echo.c:160-182 | With the device stepping between any two stores: once everything handed over is transmitted, the stream is 0, 1, 2, ... modulo 2^32, all of it, if and only if the payload never changed while a descriptor was still armed; and then each packet is FE 00 and its counter. |
| `TxRing.LateDeviceSendsTheWrongCounter` | apps/06-grspw-echo/grspw_echo.c:166-178 | A run in which counter 1 goes out in the place of counter 0. |
| `TxRing.IndicesAgree` | apps/06-grspw-echo/grspw_echo.c:172-178 | In every run driver and device indices are sends and transmissions modulo 4, agree when nothing is pending, and WR is on the last slot only. |
| `TxRing.ControlWords` | apps/06-grspw-echo/grspw_echo.c:69-71 | The words in memory at the hand-over, bit for bit. |
| `TxRing.Driver.EncodePayload` | apps/06-grspw-echo/grspw_echo.c:166-170 | The four stores are the transition system's, and leave the counter big-endian in the payload. |
| `TxRing.Driver.ArmHead` | apps/06-grspw-echo/grspw_echo.c:172-178 | The descriptor at the head, and no other, is handed over, and the head goes on, round the ring. |
| `TxRing.Driver.SendCounter` | apps/06-grspw-echo/grspw_echo.c:160-182 | A call makes exactly the transition system's four stores and hand-over. |
| `TxRing.Driver.DeviceTransmit` | apps/06-grspw-echo/grspw_echo.c:78-83 | The device's reading of descriptor and payload has the effect of the transition system's transmission. |
| `MemoryDump.DumpRoundTrip` | service/adapter/qemu.py:523-539 | Reading a printed dump gives its bytes, whatever the addresses and however many bytes are on a line. |
| `MemoryDump.ReadBytes` | service/adapter/qemu.py:535-538 | The loops over matches and tokens collect the bytes that the dump reader is specified to find, or fail at the first token that is no number. |
| `MemoryDump.PrefixedAddressIsNotRead` | service/adapter/qemu.py:523-534 | A line whose address has the 0x prefix contributes nothing. |
| `MemoryView.WholeWords` | service/adapter/qemu.py:541-545 | The word loop leaves at most three bytes and the words for the rest. |
| `MemoryView.FormatWords` | service/adapter/qemu.py:541-550 | The data field is whole big-endian words, then single bytes, joined by spaces. |
| `MemoryView.FormatMemoryDump` | service/adapter/qemu.py:526-550 | Reader, cut and word loop together give the data field that the round trips are about. |
| `MemoryView.TokenWidths` | service/adapter/qemu.py:541-549 | Of the data field's tokens those for whole words are eight digits wide, those for the last bytes two. |
| `Samples.OrdinaryRead` | service/adapter/qemu.py:526-550 | The line of a four-byte read as QEMU prints it becomes 82100000. |
| `MemoryView.PageGetsTheWords` | ui/store.jsx:382-390 | From QEMU's print through the adapter, for every layout and size: the page's words are those of all bytes printed, or of the first size of them if there are more. |
| `MemoryView.WordValuesAre` | service/adapter/qemu.py:541-549 | The words of n bytes are n / 4 big-endian words in order, then the last n % 4 bytes in order. |
| `MemoryView.PageShowsTheMemory` | ui/store.jsx:382-390 | For a size divisible by four the bytes of the page's words are exactly the memory asked for. |
| `MemoryView.ShownIffWholeWords` | ui/panels.jsx:261-268 | The bytes the page shows are the bytes read if and only if their number is a multiple of four. |
| `MemoryView.WordGlyphs` | ui/panels.jsx:261-267 | The glyphs of a word are those of its four bytes, high byte first. |
| `MemoryView.RowGlyphs` | ui/panels.jsx:260-268 | The text column is the glyphs of the bytes of the row's words. |
| `MemoryView.BuildRows` | ui/panels.jsx:256-274 | One row for every four words, the last one possibly shorter, each with the address of its first word. |
| `MemoryView.TableShowsMemory` | ui/panels.jsx:256-274 | For reads of whole words, row r is headed by the address of byte 16 r and shows, as words and as text, exactly the memory from there on. |
| `MemoryView.TableReadsBack` | ui/panels.jsx:256-274 | The address text of row r reads back as base + 16 r modulo 2^32, and each byte shows as itself if it is printable and as a dot otherwise. |
| `RegisterDump.CutSections` | service/adapter/qemu.py:455-465 | The loop cuts the text so that each header owns what follows it up to the next header or the end. |
| `RegisterReader.HeadersAreTheLines` | service/adapter/qemu.py:445-458 | In every text the headers found are exactly the places at the start of a line where CPU# and a digit stand. |
| `RegisterReader.AnyScalar` | service/adapter/qemu.py:487-489 | A scalar is read at a word boundary with any space on either side of its colon and any number of hex digits, in either case. |
| `RegisterReader.AnyWindow` | service/adapter/qemu.py:491-497 | A window is read with any space in front of and between its eight registers. |
| `RegisterPrint.BlockRoundTrip` | service/adapter/qemu.py:477-511 | For any block, in any order of its parts: each scalar and each window is reported as first printed, and as zero if it was not printed; npc is never taken for pc. |
| `RegisterCpus.HeadersFound` | service/adapter/qemu.py:445-458 | The headers found in a printed dump are exactly the printed ones, in order. |
| `RegisterCpus.SectionsFound` | service/adapter/qemu.py:455-465 | The sections of a printed dump are its CPUs, each with its whole text and nothing of any other. |
| `RegisterCpus.RegisterRoundTrip` | service/adapter/qemu.py:449-474 | For any number of CPUs, the registers reported for a CPU are those printed for it, whatever the other blocks hold. |
| `RegisterCpus.AbsentCpuIsZero` | service/adapter/qemu.py:470-472 | A CPU that is not in the dump reads as zeros. |
| `RegisterCpus.EmptyIsAllZeros` | service/adapter/qemu.py:514-520 | That is seven scalars and four windows of eight registers, all zero. |
| `RegisterCpus.SingleCpuRoundTrip` | service/adapter/qemu.py:466-468 | Text without a header is reported for CPU 0, and for no other. |
| `Samples.OrdinaryDump` | service/adapter/qemu.py:449-511 | A dump of one CPU as QEMU prints it: pc and npc are told apart, psr is not there and reads as zero, and so does another CPU. |
| `Gpio.Bench.constructor` | ui/store.jsx:73-83 | Every pin starts low, without history, with its direction. |
| `Gpio.Bench.DriveGpio` | ui/store.jsx:432-446 | Only the pin at the index changes, and only if the level does. |
| `Gpio.Bench.ToggleGpio` | ui/store.jsx:447-453 | Outputs and unknown pins are left alone; an input is driven to its other level. |
| `Gpio.HistoryIsTheEndOfTheLog` | ui/store.jsx:432-446 | After any calls under a clock that does not go back, the history is the last 200 of the pin's changes, or all if there are fewer; these go 1, 0, 1, ... and the level is that of the last one. |
| `Gpio.PinTrace` | ui/gpio-board.jsx:168-190 | The points pushed by the loop are the polyline of the visible events, starting from the level before the first of them. |
| `Gpio.LevelY` | ui/gpio-board.jsx:192-203 | A level is drawn inside the picture, and nearer the label 1 than the label 0 exactly if it is 1. |
| `Gpio.CornersDrawTheEvents` | ui/gpio-board.jsx:179-190 | At every instant the line is at the level that the visible events give. |
| `Waveform.DrawnIsTrueIffHiddenLaterIsEven` | ui/gpio-board.jsx:174-190 | At every instant of the window the pane shows the pin's true level if and only if an even number of later changes has dropped out of the history. |
| `Waveform.DrawnNearTheTrueLabel` | ui/gpio-board.jsx:168-203 | In the picture's own units: at every instant of the last ten seconds the line is inside the picture, and it is nearer the label that the true level has if and only if that number is even. |
| `Waveform.DrawnIsTrueWhereNothingIsMissing` | ui/gpio-board.jsx:174-190 | In particular it is nearer the true label if no change in the window was dropped, and from the first retained change on. |
| `Waveform.PolylineIsSquare` | ui/gpio-board.jsx:183-190 | The line has only horizontal and vertical pieces, from the left edge to the right. |
| `UartText.JoinSplit` | ui/store.jsx:242-243 | Splitting loses nothing. |
| `UartText.SplitResumes` | ui/store.jsx:241-244 | Splitting what has come and then the remainder with what comes next is splitting the whole. |
| `UartText.FramesDoNotMatter` | ui/store.jsx:239-245 | However the streams of all UARTs are cut into frames and interleaved, the lines pushed for a socket and its pending buffer are one split of all its text, and each UART shows the last 2000 of the lines since it was cleared, or all if there are fewer. |
| `UartText.TerminalShowsTheStream` | ui/store.jsx:239-245 | For any frames of any UARTs, a terminal shows the last 2000 complete lines of the text its own frames carry, and the buffer holds the incomplete one. |
| `UartText.CloseFlushes` | ui/store.jsx:246-248 | Closing pushes a non-empty remainder, so that all text has been pushed as lines, and leaves the other UARTs alone. |
| `UartText.PushedKeepsTheEnd` | ui/store.jsx:140-145 | A pushed line goes to the end of its own UART's lines, of which the last 2000 are kept, or all if there are fewer; other UARTs are untouched. |
| `UartText.Page.PushUart` | ui/store.jsx:140-145 | The method leaves just that. |
| `UartText.Page.OnMessage` | ui/store.jsx:240-245 | All complete lines of buffer and message are pushed in order, and the remainder is kept. |
| `UartText.Page.OnClose` | ui/store.jsx:246-248 | A non-empty remainder becomes a line and the buffer is gone. |
| `Decimal.NumeralIsTheOne` | apps/03-five-uarts/five_uarts.c:83-97 | The numeral parses back to the value and no other numeral without leading zeros does. |
| `Decimal.PutS` | apps/03-five-uarts/five_uarts.c:76-81 | Exactly the characters up to the terminating NUL are sent. |
| `Decimal.PutUint` | apps/03-five-uarts/five_uarts.c:83-97 | For every 32-bit value it ends, stays inside its 12 bytes, is never cut short by the bound on i, and sends exactly the numeral. |

## Left out

- One `start` per session: the code does not guard against a second concurrent one, and the model has at most one.
- Cancellation and timeouts: `stop` of the session and of the tap, and a command abandoned between send and receive.
- The QMP greeting and capability exchange, process start, sockets, HTTP routing, uploads.
- A command sent after QEMU has hung up either fails without effect or is issued; which of the two is the operating system's choice. Of those waiting for a reply then, the first gets the disconnect error and the next waits forever (Qmp.SecondCommandWaitsForever).
- HTTP responses that overwrite the page's session object: only the events socket is in the replay property.
- Convergence.StatusConverges: excludes resets that succeed while the guest is stopped and no STOP is on its way; by Convergence.AgreesIffResetsFit it is false with any of those.
- RxRing.NoPacketLost: packets of more than the 4096 bytes that the driver programs as the device's limit are not part of this model.
- TxRing.StreamIsRightIffNoOverlap: has the payload stores in source order; a compiler that merges or reorders them is not modelled, nor a device that reads the payload in pieces.
- Echo.Demo: excludes the counter 2^32 - 1, for which Echo.LastCounterIsNotEchoed shows that nothing comes back; each connection's bytes pass the tap as one stream.
- Echo.EveryCounterComesBackPlusOne: excludes the same counter.
- The GRSPW2 device itself is an environment step; descriptor address fields, the TE, RE and TR bits and the DMA registers are constant or have no effect in it.
- TapSession.Session.Forward: takes the frame as read; that reading the stream gives just that frame is TapObject.StreamReader.ReadFrame, over a reader that knows its whole stream.
- The GR740 variant of the echo app and the other demos add no new behaviour.
- The packet table of the page beyond its counter column, timestamps, toasts, and the 500-row limit.
- Registers are numbers; their print as `0x` and eight digits is not modelled, nor are characters beyond ASCII in the classes of the regular expressions.
- RegisterCpus.RegisterRoundTrip: is about dumps whose values are eight hex digits, whose other text cannot be mistaken for a register or a header, and whose CPU texts end with a newline; what the expressions make of other text is said place by place in RegisterReader.
- JavaScript numbers are integers in the model, addresses modulo 2^32; the clamping of the size in `refreshMemory` is left out because the theorems hold for every size.
- Rounding of the waveform's coordinates and its SVG text.
- A UART socket that closes after its successor for the same UART has opened; decoding of UART bytes to text.
