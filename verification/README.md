# HID Bridge: verified model

HID Bridge captures injected mouse events on one PC, sends them as 7-byte UDP packets (and over an
optional WebSocket relay) to a Linux PC, merges them there with local mice, and plays the result to a
Bluetooth host as HID reports. This project models that pipeline in Dafny and proves what it guarantees
from the injected event to the host's cursor and buttons, over every run, every interleaving of its
threads and every failure of the calls it makes. `dafny verify dfyconfig.toml` checks everything.

## How it is organised

| file | what it models |
|---|---|
| `AxisQueue.dfy` | one axis of the merger as a queue served in batches of at most 127: exact backlog, optimality, two-run stability, draining |
| `Merger.dfy` | the class `InputMerger`, whole sequences of calls, interleavings and reorderings |
| `MergerLock.dfy` | the same methods at the grain of single reads and writes, three threads and a lock |
| `LockProgress.dfy` | the steps each thread of that machine needs to finish, and that the lock is always given back |
| `Protocol.dfy` | the wire packet, both directions (`ByteConversions.dfy` holds the byte conversions) |
| `UdpListener.dfy` | the receive loop |
| `LocalMouse.dfy` | the evdev reader: device maps, event fold, device removal, the thread's loop |
| `LocalRuns.dfy` | whole runs of that reader: the calls it makes, each device on its own, whose buttons the merger holds |
| `LocalPasses.dfy` | its passes in terms of what devices and `select` do: what is read, when the mice are searched for anew |
| `MouseHook.dfy` | the forwarder's hook: button mask, 16-bit truncation, sequence numbers (`Buttons.dfy` holds the mask operations both producers share) |
| `BtProfile.dfy` | the Bluetooth profile object and its four sockets |
| `HidEmulator.dfy` | the main thread with the producers, the signal handler and the host around it, as a step function and as the class that runs the nested loops |
| `EmulatorRuns.dfy` | what holds over every run of the emulator |
| `EmulatorLock.dfy` | the whole emulator at the grain of `MergerLock.dfy`, and the atomic run each of its schedules amounts to |
| `EmulatorProgress.dfy` | what the emulator gets done: stopping, delivering, completing calls and ticks |
| `RelayHandoff.dfy` | the relay client's two threads, one shared access or WinHTTP call per step |
| `RelayProgress.dfy` | the steps its threads need to send a packet and to build up a connection |
| `RelayClient.dfy` | the relay client's methods as written, each proved to be a run of that machine |
| `WsUrl.dfy` | the relay URL parser and a printer for its results |
| `UrlTexts.dfy` | every text the parser may be given, by its shape, and what the parser makes of it |
| `EndToEnd.dfy` | hook, wire, listener, local reader, merger and dispatcher together |
| `CloseLog.dfy`, `Wrappers.dfy` | close counts, optional values |

Calls into the kernel, WinHTTP, evdev or Winsock are represented by their outcome: a parameter says which
call raises, what a read returns, or whether a send succeeds. A finite run of a loop is driven by a script
of such outcomes together with the other threads' actions, so statements about all scripts are statements
about all runs. Every class method is proved to take its object from state to state as the specification
function named in its contract; the lemmas are about those functions.

## Main results

- **Motion is conserved.** Everything added to the merger was received by the host, was in the one report a
  session lost when a send failed, or is still waiting (`MotionIsAccountedFor`, `LostMotionIsBounded`), down
  to the packets that arrived, however many were lost or repeated, the events behind them and those of the local
  mice (`CursorEndToEnd`, `CursorFollowsEvents`).
- **The merger is the optimal bounded queue.** Its backlog is exactly Lindley's maximum (`ExactBacklog`), no
  scheduler is ever ahead of it (`OptimalAtEveryTick`), and nearby inputs give nearby backlogs
  (`TwoRunStability`). All three reach the host: what it has received is what the queue sends, but for reports
  lost with their session (`HostFollowsTheQueue`, `HostIsNeverBehind`, `HostsAreStable`).
- **The lock makes the calls atomic** under every schedule of single reads and writes (`LockMakesCallsAtomic`,
  `CallsAreNeitherLostNorRepeated`), and with it the whole emulator: every such schedule of producers, signals,
  sessions and ticks does what the atomic run of one script does (`EveryScheduleHasAScript`).
- **Nothing gets stuck.** The lock is given back within thirteen steps of its holder (`LockIsGivenBack`), a call or
  a tick that finds it free is completed in a known number of steps (`NetworkCallHappens`, `MainStepCompletes`), the
  relay connects and sends from wherever its threads are (`ConnectionIsBuilt`, `PacketIsSent`), all motion is at the
  host once nothing fails for long enough (`MotionIsDelivered`), and a signal stops the program
  (`SignalStopsTheProgram`).
- **The bytes on the interrupt channel** are, one for one, the reports sent, and the host's cursor and buttons are
  what they decode to (`Emulator.Serve`).
- **Suppressed reports change nothing** but their number (`SuppressionPreservesMeaning`).
- **Buttons heal** after any loss, repetition or reordering of packets (`ButtonsHeal`), and a host button is down
  exactly when the last packet to arrive or the last local device to report says so (`ButtonsEndToEnd`).
- **Sockets and handles are accounted for** one by one over every run (`SocketAccounting`,
  `HandleAccounting`), and the relay's flag alone keeps its WebSocket from being closed under a send
  (`SendIsExclusive`).
- **The URL parser and its printer are inverse** exactly on the URLs a printed form can express
  (`RoundTripIff`, `ParserImage`), and every other text is accounted for by its shape (`ParseByShape`,
  `EveryTextHasAShape`).

## Where code and documentation differ

The model follows the code.

- `linux-hid-emulator/input_merger.py:7` says no motion is lost. That is true of the merger
  (`MotionIsConserved`) but not of the emulator: a report has been flushed before it is sent, so a failed send
  loses it. `FailedSendLosesMotion` is an instance and `MotionIsLostExactlyWhen` the exact condition.
- `linux-hid-emulator/input_merger.py:11` says a button held by either source stays pressed. With several
  local mice the local source is whichever device reported last (`LocalButtonsAreTheLastReporters`), even when it
  has been lost since: a button held on one mouse is dropped when another moves (`HeldButtonIsDropped`), and one
  held on a mouse that is unplugged stays down (`LostButtonStays`). `ReportAgreesExactlyWhen` and
  `LossAgreesExactlyWhen` give the exact condition before each of the two steps, `LocalIsUnionExactlyWhen` that
  for a whole run, in terms of what each device has sent.
- The repository's `README.md:173` describes a reader of 3-byte packets from `/dev/input/mice` with the Y axis inverted; the
  code reads evdev devices one by one and inverts nothing.
- The repository's `README.md:180` speaks of a 4-byte report; the code sends five bytes, the first being the HID header.
- The sequence number is documented as rolling (`primary-pc-forwarder/src/protocol.h:18`) and is never looked
  at by the receiver: `MotionOfArrivals` shows that a repeated datagram counts again.

## Model

| member | source | states |
|---|---|---|
| AxisQueue.ReportRange | linux-hid-emulator/input_merger.py:71-90 | a report carries exactly what there is from -127 to 127, and 127 of anything beyond |
| AxisQueue.Residue | linux-hid-emulator/input_merger.py:71-79 | what a flush leaves has the sign of what was there and is smaller by exactly 127, or zero when a report can carry all of it |
| AxisQueue.Conservation | linux-hid-emulator/input_merger.py:71-90 | arrivals plus initial residual equal outputs plus final residual, and every output fits a report |
| AxisQueue.ExactBacklog | linux-hid-emulator/input_merger.py:69-90 | with non-negative arrivals the residual is exactly the largest excess over all windows that end now |
| AxisQueue.BoundedBacklogIff | linux-hid-emulator/input_merger.py:69-90 | the backlog never exceeds a bound if and only if no window of arrivals exceeds its capacity by more |
| AxisQueue.SignedBacklogBound | linux-hid-emulator/input_merger.py:69-90 | with signed arrivals the backlog is at most that of their magnitudes |
| AxisQueue.BoundedInputBoundedBacklog | linux-hid-emulator/input_merger.py:69-90 | signed input whose windows of magnitudes exceed capacity by at most B never leaves more than B |
| AxisQueue.OptimalAtEveryTick | linux-hid-emulator/input_merger.py:69-90 | at every tick no schedule of at most 127 per tick that sends only what has arrived is ahead of repeated flushing |
| AxisQueue.FlushingIsFeasible | linux-hid-emulator/input_merger.py:69-90 | repeated flushing is itself such a schedule |
| AxisQueue.TwoRunStability | linux-hid-emulator/input_merger.py:69-90 | residuals of two runs, and what they have sent, are together no further apart than their inputs in total |
| AxisQueue.TwoRunMonotonicity | linux-hid-emulator/input_merger.py:69-90 | larger input leaves at least as much and sends at least as much at every tick |
| AxisQueue.Drain | linux-hid-emulator/input_merger.py:71-90 | without input the residual after k flushes is the sign of d times max(0, abs(d) - 127k) |
| AxisQueue.DrainsExactlyWhen | linux-hid-emulator/input_merger.py:71-90 | the backlog is empty after k flushes if and only if k is at least the rounded-up quotient by 127 |
| AxisQueue.DrainIsShortest | linux-hid-emulator/input_merger.py:71-90 | no sequence of report values with the same sum is shorter than the drain |
| Merger.InputMerger.Accumulate | linux-hid-emulator/input_merger.py:38-58 | adds both motions and replaces the buttons of the named source, any name but 'network' being local |
| Merger.InputMerger.Flush | linux-hid-emulator/input_merger.py:60-96 | returns the clamped motions and the union of both button bytes, keeps the residues and the buttons |
| Merger.MotionIsConserved | linux-hid-emulator/input_merger.py:52-96 | over any calls, per axis: initial plus added equals reported plus left |
| Merger.RefinesAxisQueue | linux-hid-emulator/input_merger.py:52-96 | for any grouping of calls between flushes each axis of the merger is the queue of AxisQueue, in state and outputs |
| Merger.MergerBacklogBound | linux-hid-emulator/input_merger.py:52-96 | input within capacity plus B leaves at most B beyond what arrived since the last flush |
| Merger.InterleavingIndependence | linux-hid-emulator/input_merger.py:52-58 | two interleavings that keep each source's order give the same state and the same later reports |
| Merger.ReorderedDatagrams | linux-hid-emulator/input_merger.py:52-56 | reordered datagrams, whatever local calls come in between, change at most the network buttons, and nothing exactly when the last one carries the same buttons |
| MergerLock.LockMakesCallsAtomic | linux-hid-emulator/input_merger.py:52-96 | under every schedule of single reads and writes flushes return what atomic calls return, and free memory is what they leave |
| MergerLock.CallsAreNeitherLostNorRepeated | linux-hid-emulator/input_merger.py:52-58 | the calls a producer has started are those that took effect, once each and in its order, and at most one in flight, which LockProgress.NetworkCallReturns and LockProgress.LocalCallReturns bring to its end |
| MergerLock.MutualExclusion | linux-hid-emulator/input_merger.py:52-69 | at most one thread is inside a critical section |
| MergerLock.ConservationUnderAnySchedule | linux-hid-emulator/input_merger.py:52-96 | whenever the lock is free, what the finished calls added is reported or in memory |
| LockProgress.NetworkCallReturns | linux-hid-emulator/input_merger.py:52-58 | from every reachable state with the lock free, a waiting network call returns after seven steps of its thread, applied to memory exactly once |
| LockProgress.NetworkCallHappens | linux-hid-emulator/input_merger.py:52-58 | and a new one, with the arguments given to it, after eight |
| LockProgress.LocalCallReturns | linux-hid-emulator/input_merger.py:52-58 | the same for a waiting local call |
| LockProgress.LocalCallHappens | linux-hid-emulator/input_merger.py:52-58 | the same for a new local call |
| LockProgress.FlushReturns | linux-hid-emulator/input_merger.py:69-96 | from every reachable state with the lock free, a waiting flush returns the report due, and leaves what it should, within fourteen steps of the dispatcher |
| LockProgress.FlushHappens | linux-hid-emulator/input_merger.py:69-96 | and a new one in one step more |
| LockProgress.LockIsGivenBack | linux-hid-emulator/input_merger.py:52-96 | from every reachable state with the lock held, at most thirteen steps of its holder complete the call and free the lock |
| Protocol.ParsePacket | linux-hid-emulator/protocol.py:23-47 | accepts if and only if there are at least 7 bytes and the first is 0xAB |
| Protocol.BuildPacket | linux-hid-emulator/protocol.py:50-62 | yields 7 bytes if and only if both motions fit 16 bits; otherwise packing raises |
| Protocol.ParseBuilt | linux-hid-emulator/protocol.py:33-62 | parsing a built packet gives back every motion and the low bytes of buttons and sequence number |
| Protocol.BuildParsed | linux-hid-emulator/protocol.py:33-62 | building what was parsed reproduces the first seven bytes |
| Protocol.ParseIsInjective | linux-hid-emulator/protocol.py:33-47 | accepted datagrams mean the same packet if and only if their first seven bytes agree |
| Protocol.PacketLayout | linux-hid-emulator/protocol.py:15-20 | bytes 1-2 and 3-4 are dx and dy, low byte first in two's complement, byte 5 the buttons, byte 6 the sequence number |
| Buttons.HidBits | primary-pc-forwarder/src/protocol.h:17 | 1 is the left button, 2 the right, 4 the middle |
| UdpListener.UDPListener.Run | linux-hid-emulator/udp_listener.py:31-70 | the merger ends as after one network call per well-formed datagram up to the first failure or stop, and the counter counts them |
| UdpListener.ReceivesUntilStopped | linux-hid-emulator/udp_listener.py:48-70 | until a receive fails or the thread is stopped each well-formed datagram makes its call in order, whatever time-outs and malformed ones come in between, and nothing after that makes any |
| UdpListener.TimeoutsAreInvisible | linux-hid-emulator/udp_listener.py:51-52 | taking out the time-outs changes nothing |
| UdpListener.OnlyAcceptedCount | linux-hid-emulator/udp_listener.py:58-65 | the calls are those of the datagrams of at least 7 bytes that start with 0xAB, one each |
| UdpListener.TruncationIsHarmless | linux-hid-emulator/udp_listener.py:50-59 | cutting a datagram to the 64-byte buffer never changes its meaning |
| LocalMouse.LocalMouseReader.FoldEvents | linux-hid-emulator/local_mouse.py:99-122 | the event loop computes the fold of the batch |
| LocalMouse.LocalMouseReader.ReadDevice | linux-hid-emulator/local_mouse.py:83-126 | one readable descriptor: unknown ones are skipped, lost ones removed and closed, batches folded and accumulated |
| LocalMouse.LocalMouseReader.Monitor | linux-hid-emulator/local_mouse.py:75-126 | the whole loop, with its exits |
| LocalMouse.LocalMouseReader.ReadLoop | linux-hid-emulator/local_mouse.py:62-133 | the merger ends as the loop says, and leaving by any path closes each device found exactly once |
| LocalMouse.RoundsKeepOrder | linux-hid-emulator/local_mouse.py:72-96 | over every run both maps keep the same keys and each device is monitored or was closed once |
| LocalMouse.AllMotionReadIsMerged | linux-hid-emulator/local_mouse.py:75-126 | over every run the merger gains exactly the sum of all motion successfully read |
| LocalMouse.BatchIndependence | linux-hid-emulator/local_mouse.py:99-126 | two splits of one event stream into batches leave merger and device buttons the same |
| LocalMouse.OneDeviceStream | linux-hid-emulator/local_mouse.py:76-126 | one device's events, however spread over reads and rounds, act as a single batch |
| LocalMouse.BatchButtons | linux-hid-emulator/local_mouse.py:112-126 | a button is down exactly when its last key event was a press, and the merger is told the same |
| LocalMouse.LocalMouseReader.Run | linux-hid-emulator/local_mouse.py:24-41 | the thread's passes through the loop, one after another until it is stopped, leave in the merger what the passes say |
| LocalRuns.OwnStreamDecides | linux-hid-emulator/local_mouse.py:76-126 | in any run, with any other devices reporting in between, a device's button byte is made by the events read from it |
| LocalRuns.OthersDoNotMatter | linux-hid-emulator/local_mouse.py:76-126 | taking out all readings of other devices, their loss included, leaves a device's state the same unless one of them raises |
| LocalRuns.LocalButtonsAreTheLastReporters | linux-hid-emulator/local_mouse.py:75-126 | over every run the local byte is that of the device that reported last, made from its own events, lost since or not; before any report it is what it was |
| LocalRuns.LocalIsUnionExactlyWhen | linux-hid-emulator/local_mouse.py:75-126 | after any run the local buttons are the union over the monitored devices if and only if, by the devices' own events, the last reporter holds exactly what some device not lost holds |
| LocalRuns.ReportAgreesExactlyWhen | linux-hid-emulator/local_mouse.py:99-126 | after a device's report the local buttons are the union if and only if no other device holds a button that its events leave up |
| LocalRuns.LossAgreesExactlyWhen | linux-hid-emulator/local_mouse.py:87-97 | losing a device leaves the merger alone, so the union holds afterwards if and only if the merger holds what the others hold; if it held before, exactly when the others hold all the lost one held |
| LocalRuns.HeldButtonIsDropped | linux-hid-emulator/local_mouse.py:124-126 | an instance: a button held on one mouse is dropped when another moves |
| LocalRuns.LostButtonStays | linux-hid-emulator/local_mouse.py:87-97 | an instance: a button held on a mouse that is lost stays down though no device holds it |
| LocalRuns.ThreadCallsMerger | linux-hid-emulator/local_mouse.py:24-126 | the thread leaves in the merger what its calls make of it, and those calls are the same whatever is in the merger |
| LocalRuns.ThreadMotion | linux-hid-emulator/local_mouse.py:24-126 | the thread's calls add up to the motion read from all devices in all passes |
| LocalRuns.ThreadButtons | linux-hid-emulator/local_mouse.py:24-126 | the buttons the calls leave are those of the last device to report in any pass, by its own events in that pass |
| LocalPasses.ReadExactlyWhen | linux-hid-emulator/local_mouse.py:83-97 | a reading is read if and only if its device is one of the mice found, has not been lost, and nothing has raised |
| LocalPasses.HoldsExactlyWhen | linux-hid-emulator/local_mouse.py:112-125 | a mouse holds a button if and only if its last key event about it, of those read, was a press |
| LocalPasses.ExitsExactlyWhen | linux-hid-emulator/local_mouse.py:75-97 | the loop is left within the rounds if and only if at one of them `select` fails, the thread is stopped, every mouse has been lost before, or a read has raised |
| LocalPasses.HandledAreTaken | linux-hid-emulator/local_mouse.py:75-97 | the readings handled are those up to the first such round |
| LocalPasses.ThreadMotionIsThatRead | linux-hid-emulator/local_mouse.py:24-126 | the thread adds to the merger exactly the motion of those readings, pass after pass |
| LocalPasses.LaterPassesFollow | linux-hid-emulator/local_mouse.py:32-41 | after a pass that ends, for lack of mice or otherwise, the later passes' calls, motion and buttons follow |
| LocalPasses.NothingFollows | linux-hid-emulator/local_mouse.py:32-41 | a pass that does not end is the last |
| LocalPasses.ReplugIsNoticed | linux-hid-emulator/local_mouse.py:75-97 | an instance: what the only mouse reports after being unplugged and plugged in again is merged |
| MouseHook.Hook.HandleMouse | primary-pc-forwarder/src/mouse_hook.cpp:108-171 | an event is suppressed if and only if one of the injected flags is set and its message is known; then exactly one packet goes to UDP and, when connected, the same one to the relay; otherwise nothing changes |
| MouseHook.SequenceNumbers | primary-pc-forwarder/src/mouse_hook.cpp:161 | packet n carries sequence number n modulo 256 |
| MouseHook.MaskIsLastEvents | primary-pc-forwarder/src/mouse_hook.cpp:143-148 | the mask has a bit set if and only if the button's last injected event was a press, and no high bits |
| MouseHook.NewestPacketCarriesMask | primary-pc-forwarder/src/mouse_hook.cpp:156-162 | the newest packet carries the current mask |
| MouseHook.MotionSent | primary-pc-forwarder/src/mouse_hook.cpp:124-140 | the motion sent is congruent modulo 65536 to the motion asked for, and equal when each displacement fits 16 bits |
| MouseHook.PassThroughIsInvisible | primary-pc-forwarder/src/mouse_hook.cpp:110-115 | hardware events and unknown messages leave no trace; each injected known event gives one packet |
| MouseHook.PacketContents | primary-pc-forwarder/src/mouse_hook.cpp:117-162 | in either mode packet k comes from the k-th injected known event: a move carries its displacement or point modulo 65536 axis by axis, a button change no motion, with the buttons so far and number k |
| BtProfile.BluetoothHIDProfile.WaitForConnection | linux-hid-emulator/bt_hid_profile.py:317-377 | succeeds if and only if none of the ten calls raises; the sockets afterwards for each failing call |
| BtProfile.BluetoothHIDProfile.SendReport | linux-hid-emulator/bt_hid_profile.py:379-409 | sends the packed report exactly when connected and the send does not raise; a raising send disconnects |
| BtProfile.BluetoothHIDProfile.Disconnect | linux-hid-emulator/bt_hid_profile.py:411-444 | closes clients and servers and clears all fields |
| BtProfile.HostReadsWhatWasPacked | linux-hid-emulator/bt_hid_profile.py:402-403 | the five bytes are 0xA1, the low three button bits, both motions as a host reads them, and zero |
| BtProfile.SignedBytesAreTwosComplement | linux-hid-emulator/bt_hid_profile.py:402-403 | a signed byte is read as the value from -128 to 127 that it is congruent to |
| BtProfile.WaitKeepsAccount | linux-hid-emulator/bt_hid_profile.py:325-377 | whichever call raises, each socket issued is held in one field or was closed once |
| BtProfile.WaitOutcome | linux-hid-emulator/bt_hid_profile.py:329-377 | success holds four sockets, a failed setup none, a failed accept the two servers |
| BtProfile.WaitOpensInOrder | linux-hid-emulator/bt_hid_profile.py:329-363 | the four sockets are created control before interrupt, servers before clients |
| BtProfile.ClosingOrder | linux-hid-emulator/bt_hid_profile.py:411-444 | a disconnect closes clients before servers, a new wait servers before clients |
| BtProfile.DisconnectClosesEverything | linux-hid-emulator/bt_hid_profile.py:411-444 | afterwards every socket ever issued has been closed exactly once |
| HidEmulator.Emulator.Tick | linux-hid-emulator/hid_emulator.py:208-216 | one iteration: flush, and a report when there is motion or a button change, whose five bytes are what the host is moved by |
| HidEmulator.Emulator.Dispatch | linux-hid-emulator/hid_emulator.py:204-222 | the inner loop, interleaved with producers and signals |
| HidEmulator.Emulator.Serve | linux-hid-emulator/hid_emulator.py:188-244 | both loops and the shutdown are the step function's run on every script; the bytes on the interrupt channel carry the reports sent one for one, and the host is what it decodes from them and the connections |
| EmulatorRuns.SocketAccounting | linux-hid-emulator/hid_emulator.py:189-244 | over every run each socket is held once or closed once, a session holds all four, and after shutdown each was closed exactly once |
| EmulatorRuns.SignalledMainStops | linux-hid-emulator/hid_emulator.py:189-231 | once signalled the main thread stops within three of its own steps |
| EmulatorRuns.SessionsEndClean | linux-hid-emulator/hid_emulator.py:224-228 | over every run a running program holds no client outside its sessions, and ending one closes every socket |
| EmulatorRuns.MotionIsAccountedFor | linux-hid-emulator/hid_emulator.py:189-228 | over every run: total added equals total sent plus total in failed reports plus residual, and the host has what was sent |
| EmulatorRuns.OneReportLostPerLostSession | linux-hid-emulator/hid_emulator.py:212-216 | every report fits its fields, and failed reports are as many as sessions ended by a failed send |
| EmulatorRuns.LostMotionIsBounded | linux-hid-emulator/hid_emulator.py:189-228 | motion lost is at most 127 per session lost to a failed send |
| EmulatorRuns.MotionIsLostExactlyWhen | linux-hid-emulator/hid_emulator.py:209-215 | a step of the main thread loses motion if and only if it hands a moving report to a failing send |
| EmulatorRuns.FailedSendLosesMotion | linux-hid-emulator/hid_emulator.py:189-215 | an instance, from start-up: after connecting, five units flushed into a failing send are gone |
| EmulatorRuns.MotionIsKeptWhileDisconnected | linux-hid-emulator/hid_emulator.py:189-199 | without dispatch steps all motion is kept and nothing is sent |
| EmulatorRuns.QuietSessionDrains | linux-hid-emulator/hid_emulator.py:205-216 | without input the session delivers the backlog at the drain rate and loses nothing |
| EmulatorRuns.QuietSessionEmptiesExactlyWhen | linux-hid-emulator/hid_emulator.py:205-216 | an axis is empty after k quiet ticks if and only if k is at least the number of flushes its backlog needs |
| EmulatorRuns.SuppressionPreservesMeaning | linux-hid-emulator/hid_emulator.py:202-216 | at every point of every run the whole system, and so cursor and buttons, is that of a dispatcher sending on every tick |
| EmulatorRuns.HostButtonsFollow | linux-hid-emulator/hid_emulator.py:202-216 | in a session the host's buttons are the low three bits of the last ones sent |
| EmulatorRuns.HostButtonsAfterTick | linux-hid-emulator/hid_emulator.py:209-216 | after a successful tick the host's buttons are the low three bits of both sources' union |
| EmulatorRuns.RunCallsMerger | linux-hid-emulator/hid_emulator.py:204-216 | the merger's state in a run is that after the calls the run makes on it |
| EmulatorRuns.RunIsTheQueue | linux-hid-emulator/hid_emulator.py:204-216 | throughout a run each axis is the exact queue of what arrived before each tick |
| EmulatorRuns.RunBacklogBound | linux-hid-emulator/hid_emulator.py:204-216 | input within capacity plus B never leaves more than B waiting after a tick |
| EmulatorRuns.FlushedAreTheQueues | linux-hid-emulator/hid_emulator.py:204-216 | the reports flushed in a run are those of its calls, and along each axis the queue's outputs |
| EmulatorRuns.FlushedAreSentOrFail | linux-hid-emulator/hid_emulator.py:209-216 | the motion flushed in a run is that of the reports sent plus that of the reports whose send failed |
| EmulatorRuns.HostFollowsTheQueue | linux-hid-emulator/hid_emulator.py:189-228 | over every run the host is where the queue's outputs take it, up to one report per session lost |
| EmulatorRuns.FlushingIsOptimalInRuns | linux-hid-emulator/hid_emulator.py:204-216 | no schedule of at most 127 per tick that sends only what has arrived would have flushed more |
| EmulatorRuns.HostIsNeverBehind | linux-hid-emulator/hid_emulator.py:189-228 | nor would any have the host further than it is by more than the reports lost with their sessions |
| EmulatorRuns.RunsAreStable | linux-hid-emulator/hid_emulator.py:204-216 | two runs with equally many ticks differ in backlog and flushed motion together by at most the difference of what reached them |
| EmulatorRuns.HostsAreStable | linux-hid-emulator/hid_emulator.py:189-228 | and so do their hosts' positions, up to the reports lost with sessions of either |
| EmulatorLock.EveryScheduleHasAScript | linux-hid-emulator/hid_emulator.py:189-231 | under every schedule of single reads and writes with signals and failures, sessions, sockets, reports and host are those of one atomic run, and between ticks so are flag and unlocked memory |
| EmulatorLock.StartedCallsAreInTheScript | linux-hid-emulator/input_merger.py:52-58 | the script of that run has every call the producers started, but for those deferred or in flight, once each and in their order |
| EmulatorLock.MotionIsAccountedForUnderAnySchedule | linux-hid-emulator/hid_emulator.py:189-231 | at that grain, between ticks and with the lock free, what finished calls added is at the host, in a failed report or in memory |
| EmulatorProgress.RunsUntilSignalled | linux-hid-emulator/hid_emulator.py:189-231 | the program runs exactly until a signal, and stops only after one |
| EmulatorProgress.SignalStopsTheProgram | linux-hid-emulator/hid_emulator.py:189-244 | any run with a signal and three later steps of the main thread has stopped |
| EmulatorProgress.TickSendsExactlyWhen | linux-hid-emulator/hid_emulator.py:209-216 | a tick hands over a report if and only if motion has accumulated on an axis or the buttons differ from the last sent |
| EmulatorProgress.SettledSessionIsSilent | linux-hid-emulator/hid_emulator.py:205-216 | with nothing accumulated and the buttons sent, ticks change nothing |
| EmulatorProgress.MotionIsDelivered | linux-hid-emulator/hid_emulator.py:189-216 | from every reachable running state, once nothing fails, all motion in the merger is at the host after as many steps as it needs reports and two |
| EmulatorProgress.NetworkInputHappens | linux-hid-emulator/input_merger.py:52-58 | at the grain of reads and writes, from every reachable state with the lock free, eight turns of the listener are one call with its arguments, in memory and in the script |
| EmulatorProgress.LocalInputHappens | linux-hid-emulator/input_merger.py:52-58 | the same for the local reader |
| EmulatorProgress.MainStepCompletes | linux-hid-emulator/hid_emulator.py:204-222 | from every reachable state in which no producer holds the lock, at most sixteen turns of the main thread complete its tick or other step, with the atomic step's effect |
| EmulatorProgress.FlagFallsOnSignal | linux-hid-emulator/hid_emulator.py:189-205 | at that grain the flag is up exactly as long as no signal has come |
| RelayHandoff.Ownership | primary-pc-forwarder/src/relay_client.cpp:114-131 | over every interleaving the thread that relies on or touches the handles is the one the flag names, and each point of the connection holds exactly its handles |
| RelayHandoff.SendIsExclusive | primary-pc-forwarder/src/relay_client.cpp:114-131 | during a send the flag is set, the socket in use is the one in the field and open, and the other thread touches no handle |
| RelayHandoff.HandleAccounting | primary-pc-forwarder/src/relay_client.cpp:153-281 | over every interleaving and failure each handle opened is held once or was closed once |
| RelayHandoff.ConnectOutcome | primary-pc-forwarder/src/relay_client.cpp:160-241 | a failed connection attempt holds nothing, a successful one exactly session, connection and WebSocket |
| RelayHandoff.JoinPrecedesPackets | primary-pc-forwarder/src/relay_client.cpp:243-281 | on every WebSocket the join message is the first message and the only join |
| RelayProgress.PacketIsSent | primary-pc-forwarder/src/relay_client.cpp:114-131 | in every reachable connected state, wherever the background thread is, six steps of the idle hook thread hand its packet to the current WebSocket, and a failed send drops the connection |
| RelayProgress.NothingIsSent | primary-pc-forwarder/src/relay_client.cpp:114-116 | without a connection it is done after two and has sent nothing |
| RelayProgress.ConnectionIsBuilt | primary-pc-forwarder/src/relay_client.cpp:160-281 | from every reachable state without a connection, at most twenty-nine steps of the background thread in which nothing fails build one up, join sent |
| RelayClient.Client.CloseHandles | primary-pc-forwarder/src/relay_client.cpp:153-158 | leaves no handle, each open one closed once, as a run of the machine |
| RelayClient.Client.DoConnect | primary-pc-forwarder/src/relay_client.cpp:160-241 | succeeds if and only if no call fails, and leaves exactly three handles or none |
| RelayClient.Client.ConnectOnce | primary-pc-forwarder/src/relay_client.cpp:259-281 | one iteration of the loop ends connected with three handles or with none, and does nothing while connected |
| RelayClient.Client.ConnectLoop | primary-pc-forwarder/src/relay_client.cpp:259-281 | the loop ends connected if and only if it was or some attempt and its join succeeded |
| RelayClient.Client.SendPacket | primary-pc-forwarder/src/relay_client.cpp:114-131 | sends one binary message exactly when connected; a failed send clears the flag |
| WsUrl.ParseWsUrl | primary-pc-forwarder/src/relay_client.cpp:39-88 | the step-by-step parser computes the parse, including its rejections and the exception for a bad port |
| WsUrl.RoundTrip | primary-pc-forwarder/src/relay_client.cpp:39-88 | every URL a form can express is read back from its printed form: scheme, host, port, path |
| WsUrl.RoundTripIff | primary-pc-forwarder/src/relay_client.cpp:39-88 | the printed form is read back as the URL if and only if the form can express it |
| WsUrl.ParserImage | primary-pc-forwarder/src/relay_client.cpp:39-88 | the parser returns exactly the URLs with a non-empty host without '/', a path starting with '/', and a host some form can write |
| WsUrl.NormalisationIsStable | primary-pc-forwarder/src/relay_client.cpp:39-88 | printing what was parsed and parsing again changes nothing |
| WsUrl.PortRoundTrip | primary-pc-forwarder/src/relay_client.cpp:75-81 | every 16-bit port survives decimal printing, conversion and the cast |
| UrlTexts.UnknownSchemeIsRejected | primary-pc-forwarder/src/relay_client.cpp:44-53 | a text that starts with neither "wss://" nor "ws://" is rejected |
| UrlTexts.ParseByShape | primary-pc-forwarder/src/relay_client.cpp:58-88 | what each shape of authority and path yields: bracketed or not, with a port or the default 443 or 80, unclosed, without a host, or with a port that cannot be converted |
| UrlTexts.EveryTextHasAShape | primary-pc-forwarder/src/relay_client.cpp:39-88 | these shapes cover every text with a scheme |
| UrlTexts.StoIOf | primary-pc-forwarder/src/relay_client.cpp:75-81 | a port text of spaces, sign, digits and anything else is its value when there are digits and it fits 32 bits, and otherwise raises |
| UrlTexts.NumberOf | primary-pc-forwarder/src/relay_client.cpp:75-81 | every port text is of that kind |
| EndToEnd.WireIsFaithful | linux-hid-emulator/udp_listener.py:58-63 | the listener turns a packet's datagram into exactly the call the packet stands for |
| EndToEnd.ListenerCalls | linux-hid-emulator/udp_listener.py:48-63 | when the well-formed datagrams received are those of certain packets, between any others and time-outs, the calls are those of the packets |
| EndToEnd.ButtonsHeal | linux-hid-emulator/udp_listener.py:48-63 | after any loss, repetition and reordering the merger's network buttons are the forwarder's mask as of the packet that arrived last |
| EndToEnd.ButtonsAgreeAfterNewest | linux-hid-emulator/udp_listener.py:48-63 | once the newest packet is the last to arrive the merger agrees with the injected events on every button |
| EndToEnd.MotionOfArrivals | linux-hid-emulator/udp_listener.py:48-63 | the merger gains each packet's motion as often as the packet arrives |
| EndToEnd.CursorEndToEnd | linux-hid-emulator/hid_emulator.py:189-228 | for any loss, repetition and reordering of packets and any local devices: the motion of what arrived plus what was read from the mice is at the host or in the merger, up to one report per lost session |
| EndToEnd.ArrivedMotion | linux-hid-emulator/udp_listener.py:48-63 | the motion of the packets that arrive is congruent modulo 65536 to the displacements of the events behind them, and equal when each of these fits 16 bits |
| EndToEnd.CursorFollowsEvents | linux-hid-emulator/hid_emulator.py:189-228 | the cursor bound in terms of those displacements |
| EndToEnd.InputIsMotionAskedFor | linux-hid-emulator/udp_listener.py:48-63 | when every packet arrives once in any order, the motion taken in is congruent modulo 65536 to that asked for plus that of local mice, and equal when each displacement fits 16 bits |
| EndToEnd.CursorWhenAllArrive | linux-hid-emulator/hid_emulator.py:189-228 | when every packet arrives once in any order, the motion asked for plus that read from local mice is at the host or in the merger, up to one report per lost session |
| EndToEnd.ButtonsEndToEnd | linux-hid-emulator/hid_emulator.py:209-216 | after a successful tick, whatever packets were lost, repeated or reordered, a host button is down if and only if, as of the event whose packet arrived last, its last injected event was a press, or the local device that reported last holds it by its own events |
| EndToEnd.ButtonsAgreeEndToEnd | linux-hid-emulator/hid_emulator.py:209-216 | when the newest packet was the last to arrive, that is the last injected event of all |

## Left out

- D-Bus pairing agent, SDP registration, adapter setup, shell scripts: calls into other programs with no logic of their own.
- Logging, banner, command line, INI files and statistics: they would add only easy members.
- Real time: sleeps, retry delays and the dispatch rate; a tick is an untimed step, and nothing is said about how soon anything happens.
- Fairness: a thread that waits for the lock may be passed over again and again; what is proved is that the lock is given back and that whoever then takes it finishes.
- Infinite runs: statements are about every finite run, of any length.
- C++ memory orderings: the atomics and the handle fields are accessed in sequentially consistent steps.
- `RelayClient::shutdown` against the background thread: it closes handles before joining that thread, so the handoff results are about the time before it is called.
- RelayClient.Client.ConnectLoop: proved with the hook thread at rest throughout; the interleavings are those of RelayHandoff.
- RelayClient.Client.ConnectOnce: likewise proved with the hook thread at rest during the iteration.
- RelayClient.Client.SendPacket: likewise proved with the background thread at the head of its loop during the call.
- EmulatorLock.EveryScheduleHasAScript: connecting, disconnecting and sending a report are single steps of the main thread; only the merger's methods are taken apart.
- The Windows hook installation, message loop and static callback; Winsock set-up; a failed UDP send is a packet that does not arrive.
- MouseHook.Hook.HandleMouse: coordinates are unbounded integers, so a 32-bit overflow in the subtraction of screen coordinates is not modelled.
- Merger.InputMerger.Accumulate: buttons are one byte, as both callers pass; the Python method would take any integer.
- The stop flags the shutdown sets for the producer threads; producers may act at any point of a run.
- The UDP listener's socket set-up and close, and discovery of evdev devices; a reader starts from the devices found.
- Text encoding: hosts and paths are sequences of characters and the conversion to wide strings is the identity.
- The HID report descriptor: only its logical range of -127 to 127 is used (`linux-hid-emulator/sdp_record.xml:122-137`).
