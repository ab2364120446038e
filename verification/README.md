# Verification model of obmc-console

obmc-console copies one upstream tty to any number of readers. Each console has a ring
buffer with one writer and many consumers: socket clients, a local tty, a raw log and a
sanitised text log. All of them are driven from one poll loop, over one table of poll
slots. A GPIO mux decides which console the tty belongs to.

This project models that server as imperative Dafny, from the ring buffer up to
`run_server`, and proves what holds between any two events of any run. `Servers.Server.Inv`
is the invariant. `Servers.Server.constructor` establishes it, every event keeps it, and
the nine lemmas at the end of `Server.dfy` say what it means:

- a client's socket has received exactly what its console was fed since the client
  connected, less what is still in the ring, with one byte repeated for each EINTR the
  kernel answered on it (`ClientReceives`); the local tty and both logs likewise, from the
  first byte and without repeats (`TtyReceives`, `LogReceives`, `TextLogReceives`);
- clients, pollers and consumers correspond one to one (`OwnersMatch`), and no two owners
  share a poll slot (`SlotsApart`);
- nobody with unread bytes is forgotten (`NobodyForgotten`);
- whenever the last attempt to switch went through, only the active console has clients,
  and the GPIO lines spell its index (`OnlyActiveHasClients`); if the kernel refuses no
  line, and without a mux, that is always (`NoRefusalInSync`).

`Servers.Server.Run` also promises `Continues`: over a run the history and every stream only
grow, and a client that is still there is owed the same bytes as before and keeps all that
it was sent. What each event must do is stated where it happens: `RunSources` reads the tty
and the bus exactly on the events of their own slots, `RunConsoles` walks every console,
`CallEvent` and `CallTimer` say what a poller's events, the kernel's reply and an expired
deadline lead to, and nobody is closed without a fault of the kernel that is named
(`Wires.Faulty`, `Links.Stays`).

What a console "was fed" is `Servers.Fed`, a function of the history of tty reads,
activations, refused activations and banners that mentions no ring, no position and no
handler. Whether the server is in sync with the mux is `Servers.SyncedAfter` of the same
history.

## How the program is represented

- The files follow the sources: `RingBuffer` (ringbuffer.c); `PollTable`, `Pollers` and
  `Server` (console-server.c, console-mux.c); `Wires`, `Drain`, `Links` and `Console`
  (socket-handler.c and the callbacks of the other handlers); `TtyHandler`; `LogHandler`;
  `Sanitizer` and `TextLog` (text-log-handler.c); `Mux` (the GPIO lines and their names);
  `ClientEscape` (console-client.c). `Seqs` holds what several of them need.
- A ring is an `array` with a tail. Its specification is a plain ghost `stream`: every byte
  ever queued. A consumer is a pair of offsets into it; the buffer, the tail and the
  positions are residues of that stream.
- A pointer is an address: a `nat` that keys a map of structures. An array of pointers is a
  `seq<nat>`. Addresses are never handed out twice, a freed structure leaves the map, and
  every access is to an address proved live. NULL is `None`.
- A poll slot index carries no owner in the source. A ghost map records who holds each slot.
- The kernel's answers on a descriptor are a finite script of outcomes: a partial write of
  any length, EAGAIN, EINTR, or a hard error. Past the end of its script a descriptor takes
  all it is given, so a statement about every script is a statement about every finite
  behaviour. The answers to renames, to opening a rotated file and to setting GPIO lines,
  what the upstream tty and the bus give, and the dates that are formatted are lists of the
  same kind. Clocks, signals, poll results and what a callback receives are
  nondeterministic choices.
- `Links` states the ownership and wake-up invariant on plain values (`Tied`, `Awake`) and
  proves what each step does to it. In the middle of an event the parameters `stray`,
  `orphans` and `dozing` name what is out of place: a poller about to be flagged, a consumer
  about to be unregistered, a consumer not yet told of new bytes.

## Where the code does not do what one would expect

Each of these is a contract with the exact condition, and an input where the promise fails;
the code is modelled as it is.

- `send_all` adds the -1 of an interrupted send to its position. It delivers a prefix and
  returns its length if and only if the kernel interrupted none of its sends
  (`Wires.SendIsExact`); otherwise one byte is repeated per interruption
  (`Wires.SendReaches`, with `Wires.InterruptionResends` as the input).
- The string escape is recognised wherever it occurs if and only if all its bytes are equal
  (`StringEscapes.CompleteIffConstant`; `StringEscapes.DoubledStartIsMissed` is the input).
- The sanitiser's output buffer stops a full chunk one byte early if and only if the
  automaton starts in normal mode and every byte before the last is printable
  (`Sanitizers.CapIsExact`; `Sanitizers.LastByteIsLost` is the input). The server's reads
  keep every piece below that size.
- A failed rename loses the file that was to be rotated. Retention survives it if and only
  if the piece that forced the rotation fills the log by itself, or the older rotated file
  ends with the bytes still owed (`LogFiles.FailedRenameLoses`; `LogFiles.RenameLosesNine` is
  the input). The next successful rename restores it.
- A client whose connection fails to switch the mux is added all the same. From a state in
  sync with the mux, a connection leaves exclusivity intact if and only if its console was
  active already, there is no mux, or the kernel refuses none of the lines
  (`Servers.Server.Connect`; `Servers.RefusedSwitchShares` is the run).
- docs/mux-support.md, line 79, has a console told that it is disconnected if it was
  connected before. The code tells every console but the selected one, at every switch
  except the first. The two agree if and only if there are at most two consoles
  (`Servers.OnlyTheConnectedIsTold`; `Servers.ThirdIsTold` is the input).

- call_pollers walks its array by index while a connection may shorten it. If a cell at or
  before the current one goes, the poller that came next is not visited until the next
  iteration; otherwise it is (`Seqs.RemovalSkips`). That can happen only while the server is
  out of sync with the mux and the console walked is not the active one; in every other
  state no due timer is left (`Servers.Server.CallPollers`).

## Model

| member | source | states |
|---|---|---|
| `Servers.Server.Run` | console-server.c:1048-1068 | any number of iterations keeps the server's invariant: ownership, wake-ups, slots, streams, truthful banners, selection in sync with the history; streams and history only grow, and no client loses what it was sent |
| `Servers.Server.RunIteration` | console-server.c:985-1046 | one iteration does, with every early exit; the poll sleeps past no deadline of the active console; without an error the tty is read and the bus served exactly on their slots' events, and every console is walked once, in order |
| `Servers.Server.RunSources` | console-server.c:1015-1033 | the upstream tty is read exactly if its slot has events, then a bus message is taken exactly if the bus's slot has; it fails exactly on end of file, an error, or a read as long as the ring; without a message the mux stays and consoles change only as queuing allows |
| `Servers.Server.RunConsoles` | console-server.c:1035-1045 | every console's pollers are called, in order, unless it ends early |
| `Servers.Server.constructor` | console-server.c:1239-1284 | initialisation establishes the invariant; each console has the ring, mux index, handlers and files its section names; the tty and the bus are watched on their own slots; the first console is active, and in sync with the mux, unless the kernel refuses one of the lines |
| `Servers.Server.ClientReceives` | socket-handler.c:174-219 | in every reachable state a client's socket has received exactly what its console was fed since it connected, up to what the ring still holds for it, with one byte repeated for each EINTR among the kernel's answers on that socket; with none, what was received followed by the ring's view is exactly that |
| `Servers.Server.TtyReceives` | tty-handler.c:87-144 | the local tty has been written, and the ring still holds for it, exactly what the console was ever fed |
| `Servers.Server.LogReceives` | log-handler.c:91-116 | the raw log's files are what a run of log_data over everything the console was fed makes of the files found at startup: the current one is the end of it within the limit, and both keep the last maxsize bytes if the last rename succeeded, so always if none is refused |
| `Servers.Server.TextLogReceives` | text-log-handler.c:303-345 | the text log's lines are what a front-to-back reading that skips each escape sequence as a whole, then splits and wraps, makes of everything the console was fed, however reads and ring wraparound cut it; its files are what a run over the stamped page leaves, with the same retention; line_count is the newlines it put in the current file since startup or rotation |
| `Servers.Server.OwnersMatch` | socket-handler.c:68-109 | between events, clients, their pollers and their consumers correspond one to one in both directions, and each pointer array lists each structure once |
| `Servers.Server.NobodyForgotten` | socket-handler.c:111-127 | `blocked` is exactly POLLOUT in the client's slot; a client with unread bytes has POLLOUT or its flush timer; with 512 or more it has POLLOUT |
| `Servers.Server.OnlyActiveHasClients` | console-mux.c:274-320 | whenever the last attempt to switch went through, a console with a client is the active one and the GPIO lines, LSB first, spell its index modulo 2^n |
| `Servers.Server.NoRefusalInSync` | console-mux.c:256-320 | over a run in which the kernel refuses no line, and without a mux, the last attempt to switch always went through |
| `Servers.NoFailureInSync` | console-mux.c:274-320 | a history without refused activations is in sync exactly when it has an active console |
| `Servers.Server.SlotsApart` | console-server.c:66-134 | pollers of all consoles, the upstream tty and the bus hold pairwise distinct slots in range, each watching a real descriptor |
| `Servers.Server.Activate` | console-mux.c:274-320 | it fails exactly when another console is active and the kernel refuses a line, and then only records that; same console: nothing changes; otherwise the console is active and every other console, then this one, is addressed once, except at the first activation |
| `Servers.Server.TryLines` | console-mux.c:285-292 | the lines show the index, or the refusal is recorded, exactly as the kernel answers |
| `Servers.Server.Switch` | console-mux.c:294-319 | after a switch only the new console has clients and each console has been addressed once, in order |
| `Servers.Server.SetActive` | console-mux.c:294-299 | the active console changes and the history records it; no stream changes and nobody is told |
| `Servers.Server.DisconnectOthers` | console-mux.c:301-315 | every other console is told and left without clients; this one is untouched |
| `Servers.Server.TellAndDeselect` | console-mux.c:306-314 | one of them is told, then left without clients |
| `Servers.OnlyTheConnectedIsTold` | docs/mux-support.md:76-80 | only the console connected before is told of a switch if and only if there are at most two consoles |
| `Servers.ThirdIsTold` | console-mux.c:301-315 | with three consoles, one that was not connected is told too |
| `Servers.Server.SetLines` | console-mux.c:256-272 | it fails exactly when one of the kernel's next answers is a refusal, at that line; on success line k shows bit k of the index |
| `Servers.Server.Announce` | console-mux.c:229-254 | the next date decides what is told: the banner joins that console's stream only, says CONNECTED exactly to the active console, and is recorded; without a date nothing is printed |
| `Servers.Server.Print` | console-mux.c:239-253 | the banner that is printed |
| `Servers.BannerReads` | console-mux.c:229-254 | its bytes, as text |
| `Servers.Tells` | console-mux.c:229-254 | a history stays truthful when a banner matches the active console, and records whom it addressed |
| `Servers.Server.TtyInput` | console-server.c:1016-1027 | the next read goes to the active console's stream and no other, and is recorded; end of file, an error, or a read as long as the ring fails; nobody is lost without a fault |
| `Servers.Server.TtyQueue` | console-server.c:1023-1026 | the queuing half of it |
| `Servers.TtyFed` | console-server.c:1016-1027 | if only the active console's stream grew by the read, every stream is again what the history says |
| `Servers.StillFed` | console-mux.c:229-254 | if only one console's stream grew by its banner, every stream is again what the history says |
| `Servers.Server.QueueOn` | ringbuffer.c:149-206 | queueing on one console leaves every other console, and the fixed slots, as they were, and loses no client without a fault |
| `Servers.Server.DeselectOn` | socket-handler.c:504-513 | deselecting a console leaves it no client; each was sent everything, or is blocked, or had a fault |
| `Servers.Server.SocketPoll` | socket-handler.c:309-351 | without POLLIN or a connection nothing happens; otherwise a client that has just joined is there; the invariant is kept from within the walk over that very console's pollers |
| `Servers.Server.Connect` | socket-handler.c:326-348 | the new client is owed exactly what is queued from now on; from a state in sync, exclusivity holds afterwards if and only if the switch was not refused, and the refusal is read off the kernel's answers |
| `Servers.RefusedSwitchShares` | socket-handler.c:326-348 | a run of two consoles in which a refused line leaves a client on a console that is not active |
| `Servers.Server.AddClientOn` | socket-handler.c:384-415 | the same for the client structures alone |
| `Servers.Server.BusMessage` | console-dbus.c:118-149 | the next message is served: a Connect call makes its console the active one unless a line is refused, and adds a client if a socket pair can be made; any other changes nothing |
| `Servers.Server.ClientEvent` | console-server.c:903-911 | hangup closes the client, EAGAIN from recv() changes nothing, POLLOUT drains it or closes it for a fault; only its own poller is flagged, and exactly if it was closed |
| `Servers.Server.TtyEvent` | console-server.c:903-911 | the same for the local tty's callback |
| `Servers.Server.ClientTimer` | console-server.c:913-927 | the timer is cleared and the client drained, or it is closed for a fault and its poller flagged |
| `Servers.Server.CallEvent` | console-server.c:892-911 | without events nothing happens; otherwise the owner's callback runs on the events of its own slot and does what they and the kernel's reply ask; pollers still to be visited stay live and unflagged |
| `Servers.Server.CallTimer` | console-server.c:913-927 | exactly if the deadline has come, in microseconds, the timer is cleared and the client drained, or the poller flagged; otherwise nothing changes |
| `Servers.Server.FireTimer` | console-server.c:916-926 | the branch in which it has come |
| `Servers.Server.CallOne` | console-server.c:892-928 | both halves, in order: what the events asked for still holds after the timer, and this poller has no due timer left |
| `Servers.Server.CallPollers` | console-server.c:878-951 | no poller is left flagged and, unless the server is out of sync with the mux and the console not active, no timer due at `now` is left armed |
| `Servers.Server.WalkPollers` | console-server.c:892-928 | the walk terminates although callbacks shrink and grow the array under it |
| `Seqs.RemovalSkips` | console-server.c:892-928 | after a cell was taken out, the walk by index still meets the poller that came next if and only if the cell was further on |
| `Servers.Server.PurgeOn` | console-server.c:930-948 | the removal pass leaves exactly the unflagged pollers, in order |
| `Servers.Server.PollAll` | console-server.c:1000-1000 | a poll that rewrites any revents, or fails and rewrites none, disturbs no console |
| `Servers.Server.Steps` | console-server.c:85-134 | a step of one console that leaves it good leaves all consoles good, over the shared slot table |
| `Servers.BuildConsoles` | console-server.c:1180-1237 | consoles built one after the other are separate, good, empty, and what their sections ask for; slots held before are untouched |
| `Links.Bijection` | socket-handler.c:221-307 | the value form of the ownership bijection |
| `Links.NoLostWakeup` | socket-handler.c:174-299 | the value form of no lost wake-up |
| `Links.CloseFromRingKeeps` | socket-handler.c:238-243 | closing a client from inside the ring's callback orphans exactly its consumer |
| `Links.CloseFromPollerKeeps` | socket-handler.c:260-306 | closing it from inside its poller's callback strands exactly its poller |
| `Links.DropConsumerKeeps` | ringbuffer.c:80-114 | unregistering an orphan restores the invariant |
| `Links.FlagKeeps` | console-server.c:906-910 | flagging a stray poller restores the invariant |
| `Links.PurgeKeeps` | console-server.c:930-948 | removing flagged pollers keeps it |
| `Links.DrainSettles` | socket-handler.c:174-246 | a drain that succeeded leaves the client settled: forced, it was settled before; unforced, it is blocked or has nothing unread |
| `Links.AddClientKeeps` | socket-handler.c:326-348 | adding a linked client keeps it |
| `Links.DrainTtySettles` | tty-handler.c:87-158 | the same as `Links.DrainSettles` for the local tty |
| `Consoles.Console.Queue` | ringbuffer.c:149-206 | whatever the handlers' descriptors do, the stream grows by exactly the data unless it is as long as the ring; survivors are the same readers; everyone is settled; a client is lost only for a fault of the kernel, of which EAGAIN is one only if there was no room |
| `Consoles.Console.MakeRoom` | ringbuffer.c:169-180 | after the forcing loop every remaining consumer has room, so the assertion in the source holds and no unread byte is overwritten; with room to begin with no client changes |
| `Consoles.Console.RoomForOne` | ringbuffer.c:170-179 | one turn of it: this consumer has room or is dropped, and the index stays right in both cases |
| `Consoles.Console.EnsureSpace` | ringbuffer.c:129-147 | success means room; with room to begin with no handler is called; the local tty is forced to write no more than is missing; failure orphans this consumer only |
| `Consoles.Console.NotifyOne` | ringbuffer.c:192-203 | one notification settles or drops one consumer, and the index stays right in both cases |
| `Consoles.Console.NotifyAll` | ringbuffer.c:192-203 | afterwards no remaining consumer is unaware of the new bytes |
| `Consoles.Console.PollConsumer` | ringbuffer.c:140-143 | every handler's callback that returns OK under force has committed at least the forced amount |
| `Consoles.Console.DropOrphan` | ringbuffer.c:80-114 | an orphan is unregistered once, and nothing else changes |
| `Consoles.Console.ClientSend` | socket-handler.c:174-212 | what the socket took is where the count says it is in the stream, one byte repeated per interruption; under force at least the forced amount |
| `Consoles.Console.ClientDrain` | socket-handler.c:174-219 | the socket has received the stream up to what was committed, one byte repeated per interruption; under force at least the forced amount is committed; unforced, all of it or until EAGAIN; it fails only for a fault of the kernel or if too little is unread, and then commits nothing |
| `Consoles.Console.ClientRingPoll` | socket-handler.c:221-246 | below 512 bytes and unforced nothing is sent and the timer is armed for 4 ms; otherwise the client is drained; failure, only for a fault, frees client and poller and leaves the consumer to the ring |
| `Consoles.Console.ClientWaits` | socket-handler.c:228-236 | arming the flush timer, 4 ms after the clock reading, settles the client |
| `Consoles.Console.ClientLeavesRing` | socket-handler.c:238-243 | with rbc set to NULL first, the close unregisters the poller and not the consumer |
| `Consoles.Console.ClientLeavesPoller` | socket-handler.c:260-306 | with poller set to NULL first, the close unregisters the consumer and not the poller |
| `Consoles.Console.ClientClose` | socket-handler.c:68-109 | exactly what the two pointers name is unregistered, and the client leaves the array |
| `Consoles.Console.ClientTimeout` | socket-handler.c:249-268 | a blocked client is left alone; any other is drained, or closed for a fault with its poller left to be flagged |
| `Consoles.Console.ClientPoll` | socket-handler.c:270-307 | hangup closes the client; EAGAIN from recv() changes nothing; otherwise POLLOUT unblocks and drains it or closes it for a fault, and without POLLOUT nothing changes |
| `Consoles.Console.ClientFlush` | socket-handler.c:294-306 | the POLLOUT half |
| `Consoles.Console.CallClient` | console-server.c:903-911 | with the flag that call_pollers sets exactly if the client was closed |
| `Consoles.Console.CallTty` | console-server.c:903-911 | the same for the local tty |
| `Consoles.Console.SetBlocked` | socket-handler.c:111-127 | the flag and POLLOUT in the slot change together |
| `Consoles.Console.AddClient` | socket-handler.c:326-348 | one more client, starting at the end of the stream with nothing sent; one more poller, at the end of the array |
| `Consoles.Console.Deselect` | socket-handler.c:504-513 | terminates with no client left; each was flushed first: sent everything, or blocked, or closed for a fault |
| `Consoles.Console.TtyRingPoll` | tty-handler.c:146-158 | OK under force frees exactly the forced amount; it fails only for an error, or EAGAIN under force, and then frees the poller and leaves the consumer to the ring |
| `Consoles.Console.TtyPoll` | tty-handler.c:160-192 | an unreadable tty is given up; POLLOUT unblocks and drains it, or gives it up for an error; otherwise nothing changes |
| `Consoles.Console.LogRingPoll` | log-handler.c:91-116 | the raw log's callback reads to the end of the stream, or orphans its consumer because the kernel refused a write or the new file |
| `Consoles.Console.TextRingPoll` | text-log-handler.c:303-345 | the same for the text log's |
| `Consoles.Console.ExpireTimer` | console-server.c:913-927 | a due timer is cleared before its callback; the client is then drained, left alone if blocked, or closed for a fault and its poller flagged |
| `Consoles.Console.SetFlag` | console-server.c:906-910 | flagging the stray poller makes the console good again |
| `Consoles.Console.Purge` | console-server.c:930-948 | no poller is flagged afterwards, and the array is the old one without the flagged |
| `Consoles.Console.constructor` | console-server.c:1076-1138 | a new console is good, empty, has the handlers, files and descriptors its configuration names, and touches no slot but its own |
| `Consoles.InitHandlers` | console-server.c:651-694 | the same for the handlers alone |
| `Consoles.Console.Undisturbed` | console-server.c:85-134 | steps of another console over the shared table leave this one good |
| `RingBuffers.RingBuffer.ViewIsPending` | ringbuffer.c:53-235 | a consumer's committed bytes followed by its circular unread view are exactly the bytes queued since it registered |
| `RingBuffers.RingBuffer.Register` | ringbuffer.c:54-78 | a new consumer starts at the end of the stream |
| `RingBuffers.RingBuffer.Unregister` | ringbuffer.c:80-114 | the one cell that points at it goes, the others keep their order, and the structure is freed |
| `RingBuffers.RingBuffer.Len` | ringbuffer.c:116-122 | the circular distance is the number of unread bytes of the stream |
| `RingBuffers.RingBuffer.Space` | ringbuffer.c:124-127 | space and unread bytes add up to size - 1 |
| `RingBuffers.RingBuffer.Peek` | ringbuffer.c:208-228 | the piece is what the stream holds at that offset, as long as the buffer's end allows; empty exactly when nothing is left |
| `RingBuffers.RingBuffer.Commit` | ringbuffer.c:230-235 | only this consumer moves, by the length, over the bytes of its view |
| `RingBuffers.RingBuffer.Append` | ringbuffer.c:182-190 | the wrapped copy appends to the stream and overwrites nobody's unread bytes |
| `RingBuffers.RingBuffer.constructor` | ringbuffer.c:29-43 | an empty ring |
| `RingBuffers.CircularWindow` | ringbuffer.c:208-228 | reading the buffer circularly from a residue reads the stream |
| `RingBuffers.WindowMoves` | ringbuffer.c:182-190 | the two-part write keeps the buffer a window on the end of the stream |
| `RingBuffers.PieceLength` | ringbuffer.c:208-228 | the length of a contiguous piece, in both positions of tail and pos |
| `PollTables.PollTable.FindReleased` | console-server.c:72-81 | the first reclaimable slot, or none |
| `PollTables.PollTable.Request` | console-server.c:85-114 | the first reclaimable slot, or a new one, that nobody holds; no other owner's slot changes |
| `PollTables.PollTable.Release` | console-server.c:116-134 | the slot becomes reclaimable; no other owner's slot changes |
| `PollTables.PollTable.Poll` | console-server.c:1000-1000 | poll() rewrites revents only, and none if it fails |
| `PollTables.Interest` | socket-handler.c:111-127 | input is always watched, output exactly while blocked |
| `Pollers.PollerSet.Register` | console-server.c:739-780 | a poller at the end of the array, unflagged, holding a slot for its descriptor |
| `Pollers.PollerSet.Unregister` | console-server.c:782-820 | its one cell goes, its slot is released, the structure is freed |
| `Pollers.PollerSet.SetEvents` | console-server.c:822-827 | only this poller's events change |
| `Pollers.PollerSet.SetTimeout` | console-server.c:829-841 | the deadline is the interval after the time read, in microseconds |
| `Pollers.PollerSet.FindFlagged` | console-server.c:934-944 | the first flagged poller, or none |
| `Pollers.PollerSet.RemoveFlagged` | console-server.c:930-948 | the restarting scan terminates and is a filter: exactly the unflagged pollers in order, and exactly the flagged ones' slots released |
| `Pollers.ReleasedExactly` | console-server.c:782-820 | the slots of this console held afterwards are those of the pollers kept |
| `Pollers.OthersHold` | console-server.c:85-134 | another console's slot traffic leaves these pollers holding their slots |
| `Pollers.PollerSet.PollTimeout` | console-server.c:843-876 | -1 exactly when no timer is armed, otherwise the floor in milliseconds of the time to the earliest deadline, 0 if it has passed |
| `Pollers.Remaining` | console-server.c:863-875 | the two-field arithmetic with its borrow is that floor |
| `Pollers.NeverOversleeps` | console-server.c:843-876 | the poll never sleeps past any armed deadline and wakes less than a millisecond before the earliest |
| `Timevals.Add` | console-server.c:829-841 | normalised, and the sum in microseconds |
| `Timevals.Sub` | console-server.c:863-875 | normalised, and the difference in microseconds |
| `Timevals.BeforeIsEarlier` | console-server.c:852-862 | comparing field by field compares instants |
| `Wires.SendAll` | socket-handler.c:129-169 | the loop is the recursion that `Wires.SendIsExact` is about |
| `Wires.SendVerdict` | socket-handler.c:129-169 | it fails if and only if the last answer is an error, 0 bytes or EAGAIN while blocking, or it was interrupted at the first byte; it marks the client blocked if and only if the last answer is EAGAIN while not blocking |
| `Wires.SendFault` | socket-handler.c:129-169 | so a kernel without a fault in store fails no send |
| `Wires.SendIsExact` | socket-handler.c:129-169 | the delivery is exactly the counted prefix if and only if none of the kernel's answers consumed is EINTR |
| `Wires.SendReaches` | socket-handler.c:129-169 | whatever the kernel answers, what was delivered is the stream up to the counted position, with one step back of one byte per interruption |
| `Wires.SendCounts` | socket-handler.c:129-169 | bytes delivered are bytes counted plus interrupted sends |
| `Wires.InterruptionResends` | socket-handler.c:148-159 | one signal after the first byte sends it twice |
| `Wires.InterruptionFails` | socket-handler.c:148-159 | a signal before the first byte fails the send |
| `Wires.WriteBuf` | util.c:26-40 | success writes the whole buffer, failure a proper prefix; it fails if and only if one of the answers is not that bytes were taken |
| `SocketDrains.DrainLoop` | socket-handler.c:174-212 | under any partial sends: success leaves the socket at the counted position of the stream, one byte repeated per interruption; under force it covers the forced amount; unforced it empties the queue or stops at EAGAIN; it fails only for a fault of the kernel or if too little is unread |
| `TtyHandlers.TtyHandler.DrainQueue` | tty-handler.c:87-144 | forced, it commits exactly the smaller of the force and the unread length, that prefix is what was written, and the descriptor is non-blocking again; unforced, it blocks exactly on EAGAIN or empties the queue; it fails exactly on an error, or EAGAIN under force, and then commits nothing |
| `TtyHandlers.WriteLoop` | tty-handler.c:105-135 | the loop alone, under any partial writes and interruptions, with the same verdicts on the kernel's answers |
| `TtyHandlers.TtyHandler.SetFdBlocking` | tty-handler.c:45-58 | the descriptor's mode is the one asked for |
| `TtyHandlers.TtyHandler.SetBlocked` | tty-handler.c:69-85 | the flag and POLLOUT in the slot change together |
| `LogFiles.Retention` | log-handler.c:54-139 | over whole runs, for pieces of any length, any files found at startup and any answers to renames: the size bound, the current file is the end of the log, and both files keep the last min(total, maxsize) bytes if the last rename succeeded |
| `LogFiles.PutSound` | log-handler.c:65-89 | the size bound and the suffix property survive a piece, rename or not |
| `LogFiles.PutIntact` | log-handler.c:65-89 | retention survives a piece that does not rotate, and is restored by any rotation whose rename succeeds |
| `LogFiles.CreateIntact` | log-handler.c:118-139 | opening an existing log establishes both |
| `LogFiles.FailedRenameLoses` | util.c:42-66 | after a failed rename the promise holds if and only if the piece fills the log by itself or the older rotated file ends with the bytes still owed |
| `LogFiles.RenameLosesNine` | util.c:42-66 | an input where it does not |
| `LogHandlers.MaxSize` | log-handler.c:169-169 | the floor under the configured size |
| `LogHandlers.LogHandler.constructor` | log-handler.c:118-139 | the files are what opening those found makes of them |
| `LogHandlers.LogHandler.Trim` | log-handler.c:54-63 | rotation starts an empty file, whether or not the rename succeeded; it fails exactly if the new file cannot be opened |
| `LogHandlers.LogHandler.LogData` | log-handler.c:65-89 | the piece joins the run the files are made of; it fails only if the kernel refuses a write or the new file |
| `LogHandlers.LogHandler.Poll` | log-handler.c:91-116 | success logs exactly the unread bytes, piece by piece, and leaves none; the files are still what the run of all pieces makes; it fails only if the kernel refuses |
| `Sanitizers.Sanitize` | text-log-handler.c:142-225 | output and mode are those of the automaton on what the output buffer let it read |
| `Sanitizers.SanitisingStrips` | text-log-handler.c:148-224 | the automaton's output is a reading that mentions no mode: text byte by byte, each escape sequence skipped as a whole, by kind |
| `Sanitizers.ChunkIndependence` | text-log-handler.c:142-225 | any cutting of the stream gives the output and the mode of one pass |
| `Sanitizers.ShortPieces` | text-log-handler.c:148-148 | a piece shorter than the output buffer is read to its end |
| `Sanitizers.CapIsExact` | text-log-handler.c:148-148 | a piece as long as the buffer is stopped one byte early if and only if the automaton starts in normal mode and all before the last byte is printable; it then differs from one whole pass exactly when that byte would have mattered |
| `Sanitizers.LastByteIsLost` | text-log-handler.c:148-148 | an input whose last byte does not come out |
| `Sanitizers.OutputIsClean` | text-log-handler.c:142-225 | output is printable ASCII or newline, and a subsequence of the input |
| `Sanitizers.ErasableVanishes` | text-log-handler.c:148-224 | a well-formed control sequence, control string or OSC, or ESC with any byte that introduces none, emits nothing and returns to normal mode |
| `Sanitizers.EscapeErasure` | text-log-handler.c:148-224 | inserting any number of them wherever the automaton is in normal mode changes neither output nor mode |
| `LineAssembly.AssemblyIsSplitAndCut` | text-log-handler.c:282-300 | the byte-by-byte assembler is splitting at newlines, then cutting every 8191 characters |
| `LineAssembly.AssemblyConserves` | text-log-handler.c:282-300 | bodies and pending text are the text without its newlines; no body is longer than 8191 |
| `TextLogHandlers.TextLogHandler.constructor` | text-log-handler.c:120-140 | the files are what opening those found makes of them, for any page size; normal mode, no pending text |
| `TextLogHandlers.TextLogHandler.Trim` | text-log-handler.c:80-93 | rotation starts an empty file, whether or not the rename succeeded, and restarts the line count; it fails exactly if the new file cannot be opened |
| `TextLogHandlers.TextLogHandler.WriteData` | text-log-handler.c:95-118 | the data joins the run the files are made of, truncated to its tail if it alone exceeds the limit; the count restarts exactly when it rotates |
| `TextLogHandlers.TextLogHandler.FlushLine` | text-log-handler.c:249-280 | the next date with line_count, the line and a newline are logged in that order; line_count is the newlines put in the current file after what it held when opened, wherever a rotation fell; it fails only if the kernel refuses |
| `TextLogHandlers.TextLogHandler.AppendChar` | text-log-handler.c:282-300 | one byte of the assembler; the log is the page of all lines flushed |
| `TextLogHandlers.TextLogHandler.Consume` | text-log-handler.c:314-339 | one chunk advances the automaton, the assembler and the log together |
| `TextLogHandlers.TextLogHandler.Poll` | text-log-handler.c:303-345 | success leaves nothing unread and, below 8192 unread bytes, all of it has been seen; the files are still what the run over the page makes; it fails only if the kernel refuses |
| `TextLogHandlers.TimestampReads` | text-log-handler.c:227-247 | a timestamp reads back as the date and, between spaces, a decimal number whose value is the line count |
| `TextLogHandlers.PaddedSays` | text-log-handler.c:241-241 | the number has at least seven digits and its decimal value is the one meant |
| `MuxLines.LinesSpellIndex` | docs/mux-support.md:36-37 | lines showing an index, read LSB first, spell it modulo 2^n |
| `GpioNames.CountTokens` | console-mux.c:26-39 | one more than the number of commas |
| `GpioNames.ExtractName` | console-mux.c:48-73 | a non-empty comma-free name and the text it came from, or an error exactly on an empty field |
| `GpioNames.RequestLines` | console-mux.c:112-140 | success gives back the configured list up to one trailing comma, every name found; failure means an empty field or a name not found |
| `GpioNames.RoomForOne` | console-mux.c:112-140 | the loop never writes past the array sized by the comma count |
| `GpioNames.ListingInjective` | console-mux.c:112-140 | a list of names is determined by its text |
| `SshEscapes.EscapeIsExact` | console-client.c:70-110 | the verdict is escape if and only if CR tilde dot occurs; without it the bytes forwarded are the input less the tildes after a CR |
| `SshEscapes.EscapeForwards` | console-client.c:70-110 | at the first escape, the bytes forwarded are the stripped input before its tilde |
| `SshEscapes.RecogniseResumes` | console-client.c:70-110 | chunk boundaries do not matter |
| `SshEscapes.SshClient.Process` | console-client.c:70-110 | over every chunking, the verdict and the bytes written are those of one pass over all input; an error exactly if the kernel refused a write |
| `StringEscapes.ScanIsSound` | console-client.c:112-137 | the position stays below the escape's length, the last bytes are its prefix, and an escape verdict means the bytes forwarded end with it |
| `StringEscapes.ScanResumes` | console-client.c:112-137 | chunk boundaries do not matter |
| `StringEscapes.CompleteIffConstant` | console-client.c:120-124 | every occurrence is recognised, in every input, if and only if all bytes of the escape are equal |
| `StringEscapes.DoubledStartIsMissed` | console-client.c:120-124 | the input that is missed otherwise: the escape with its first byte doubled |
| `StringEscapes.StringClient.Process` | console-client.c:112-137 | over every chunking, the verdict and the bytes written are those of one pass over all input; an error exactly if the kernel refused a write |

## Left out

- Device discovery, sysfs, termios, UART routing and baud rates: calls into the system.
- D-Bus vtables, systemd sockets and libgpiod: only "connect" and "set a line" are kept, as steps.
- Configuration lookups, `config_parse_bytesize` and socket paths: they would only add easy members.
- Bytes a client or the local tty sends upstream (`console_data_out`): reading them only decides whether the reader stays.
- Teardown (`*_fini`), failed partial initialisation and failed allocation.
- Structures on the heap: clients, pollers and consumers are values in maps keyed by address. Aliasing is equality of addresses and use after free is an address outside the map, so both are ruled out by proof; what is not captured is their layout.
- `linebuf`, the sanitiser's output buffer and the log files are sequences with the source's bounds, not arrays.
- Handlers are initialised in one fixed order; in the program it is the order of linking.
- POLLER_EXIT, which no callback returns.
- The poll timeout's cast to `int`, the SSIZE_MAX check in `send_all`, and a failing clock.
- A write that returns 0 on the local tty is retried, as in the source; it ends because the kernel has only finitely many answers other than success.
- A ring of size 0 and an empty string escape, which the configuration would have to ask for.
- How large the slot table grows: a released slot stops matching the reclaim test after the next poll, so no bound by live owners is claimed.
- Consoles.Console.Queue: takes pieces below 8192 bytes, because the text log's exactness rests on it; the callers pass tty reads of at most 4096 bytes and banners of at most 60.
- Sanitizers.EscapeErasure: control strings with ESC in the payload, and ESC sequences with intermediate bytes, are not among the erasable ones, because the automaton does not erase them.
- The text of a date: anything that fits the buffer stands for a banner's, any text without a newline for one in the text log.
- Servers.Server.CallPollers: promises that no due timer is left only while in sync with the mux or for the active console, because the walk skips a poller otherwise; which one is the exact `Seqs.RemovalSkips`, and when a skipped poller is visited next is not stated.
- Pollers.PollerSet.PollTimeout: is about the active console's timers only, as in the source.
