# A verified model of the CogServer's network protocols

The CogServer lets many clients talk to shells over telnet, HTTP, WebSocket and MCP sockets. This
project models the parts of it that have to be right under every interleaving of its threads and
every way the network cuts a byte stream, and proves what they promise.

* **Protocols between threads** are step systems: each region that the source runs under a mutex is
  one step, a waiting thread may be woken at any time for no reason, and a *run* (module `Runs`) is
  any sequence of steps from an initial state. The theorems hold in every state of every run, for any
  number of threads, sockets, UUIDs and requests. The mutable fields themselves are classes whose
  methods are those regions; each carries a ghost copy of the step system's state, and its contract
  says which step of the system, or which path of steps, the method takes.
* **Codecs and parsers** are methods with the source's own loops, proved equal to a specification
  function; the theorems about that function are round trips against an independently written
  printer. The stream readers take their input from a `Connection` that hands over any number of
  bytes at each read, so what they promise is promised for every chunking.

| module | what it models |
|---|---|
| `Basics` | optional values, sequences and characters that several modules share |
| `Runs` | runs and paths of step systems, the invariance rule, gluing |
| `RecvBarrier`, `BarrierMisuse` | the UUID barrier with its `uint8_t` counters; what happens when it is called too often or too seldom |
| `SlotLimiter` | the connection limiter |
| `GlobalBarrier` | the drain barrier over all shells and its gate |
| `RequestQueue` | the request queue and `processRequests` |
| `UseCount` | the use count that delays the destruction of a socket |
| `LineDiscipline`, `ShellQueue`, `ShellLines` | what becomes of a line; the shell's socket, eval and poll threads; what a line does to them |
| `Bits`, `WebSocket`, `Frames` | machine words and exclusive or; unmasking; WebSocket frames |
| `Base64` | the encoder and the decoder |
| `StreamReader`, `TelnetLines` | reading lines and bodies off a cut stream; telnet connections |
| `HttpKeepAlive`, `HttpRequests` | HTTP connections; requests as clients print them |
| `McpSplitter`, `Tokenizer` | several JSON objects on one line; the console's command line |

`dafny verify dfyconfig.toml` checks everything.

## What turned out not to hold

* **Global barrier.** The header promises that the call blocks until all shells have drained
  (opencog/network/SocketManager.h:96-104). The scan skips sockets that are inside a barrier
  themselves, so with two overlapping calls one of them can leave while the other's shell, back from
  its barrier, still has work. `GlobalBarrier.EarlyLeaveIff`: such a leave is reachable if and only if
  two different sockets ever call the barrier. What holds in every run is `LeaveMeansDrained`.
* **Connection limiter.** The counter also counts the sockets that wait for it to fall, so it can get
  stuck with nobody admitted. `SlotLimiter.StuckIff`: exactly when more threads can wait at once than
  the maximum. Those who wait are listener threads, which construct a socket for each connection they
  accept (opencog/network/NetworkServer.cc:165, opencog/network/ServerSocket.cc:98-99), so the number
  that can wait at once is the number of listeners, and a server whose maximum is at least that number
  cannot get stuck.
* **UUID barrier.** It does not defend itself against clients that call it too often: the extra caller
  takes somebody's exit and a waiter is left without its map entry. `BarrierMisuse.FaultIff`, for any
  calls with any arguments, n = 0 and disagreeing ones included: this is reachable if and only if some
  call asks for at least two calls, but for fewer than its UUID gets. An n of 0 acts as 256.
* **Pong.** The reply to a ping puts the length in one byte; it is the ping's payload exactly up to
  the 125 bytes of section 5.5 of RFC 6455 (`Frames.PongFaithfulIff`, `Frames.LongPingMisanswered`).
* **Content-Length.** Field names are case-insensitive by section 5.1 of RFC 9110; the server knows
  two spellings. A request with a body is delivered as sent exactly when it uses one of them and the
  length fits an `int`; a longer length ends in an exception nobody catches
  (`HttpRequests.DeliveredIff`, `HttpRequests.CapitalsLoseTheBody`).

## Model

| member | source | states |
|---|---|---|
| `RecvBarrier.BarrierTable.EnterRegion` | opencog/network/SocketManager.cc:376-399 | an arrival changes the shared map as the transition `Enter`, wrap-around of the 8-bit counters included |
| `RecvBarrier.BarrierTable.WakeRegion` | opencog/network/SocketManager.cc:393-399 | a wake-up, spurious or not, changes the map as `Wake` |
| `RecvBarrier.BarrierTable.LeaveEntry` | opencog/network/SocketManager.cc:396-399 | an exit counts down and erases the entry for the last leaver |
| `RecvBarrier.EnterFits` | opencog/network/SocketManager.cc:376-399 | one more arrival keeps `remaining` = n - arrived, `to_exit` = n - exited modulo 256 and the entry's lifetime, for every argument, 0 acting as 256 |
| `RecvBarrier.WakeFits` | opencog/network/SocketManager.cc:393-399 | a waiter finds its entry, returns if and only if all n have arrived, and keeps the counts |
| `RecvBarrier.RunInv` | opencog/network/SocketManager.cc:374-400 | the full invariant holds in every state of every run on any number of UUIDs |
| `RecvBarrier.Safety` | opencog/network/SocketManager.cc:374-400 | for every UUID called n times, n in 1..256: nobody returns before the n-th arrival; counters are n minus arrivals and n minus exits, without wrapping for n up to 255; the entry exists exactly from first arrival to last exit; no waiter sees an erased entry |
| `RecvBarrier.OthersUnchanged` | opencog/network/SocketManager.cc:378-399 | a step on one UUID leaves the entry and the calls of every other UUID alone |
| `RecvBarrier.WaitersEnabled` | opencog/network/SocketManager.cc:386-399 | once all n have arrived, any waiter that wakes returns |
| `RecvBarrier.Completes` | opencog/network/SocketManager.cc:386-399 | from there, one step per waiter returns them all, erases the entry and touches no other UUID |
| `RecvBarrier.MeasureDecreases` | opencog/network/SocketManager.cc:374-400 | every step is a spurious wake-up that changes nothing or decreases the measure |
| `RecvBarrier.StuckOnlyWhenDone` | opencog/network/SocketManager.cc:374-400 | a reachable state in which no call can change anything has all calls returned and an empty map |
| `BarrierMisuse.ExtraCallBreaksIt` | opencog/network/SocketManager.cc:374-400 | a third call with n = 2 returns at once and erases the entry another waiter needs |
| `BarrierMisuse.TameRun` | opencog/network/SocketManager.cc:374-400 | when every call asks for one or for at least as many calls as come, no waiter sees an erased entry in any run, and a complete barrier has an exit left for each waiter |
| `BarrierMisuse.TooFewNeverReturn` | opencog/network/SocketManager.cc:392-394 | when every call on a UUID asks for more calls than there are, none of them ever returns, whatever happens on other UUIDs |
| `BarrierMisuse.ShortEndsInFault` | opencog/network/SocketManager.cc:392-399 | once one exit is missing, waiters leave one by one until the last finds its entry erased |
| `BarrierMisuse.FaultIff` | opencog/network/SocketManager.cc:374-400 | for any calls with any 8-bit arguments, a waiter can find its entry erased if and only if some call asks for at least two calls but for fewer than its UUID gets |
| `SlotLimiter.Limiter.EnterRegion` | opencog/network/SocketManager.cc:84-99 | is the system's step `Enter` for this socket, keeps the invariant that at most max are admitted, and returns true exactly when the socket is among them |
| `SlotLimiter.Limiter.WakeRegion` | opencog/network/SocketManager.cc:98-98 | is the step `Wake`: the waiter joins the admitted, within the bound, or nothing changes |
| `SlotLimiter.Limiter.ReleaseRegion` | opencog/network/SocketManager.cc:101-106 | is the step `Release` and keeps the counter equal to waiters plus admitted |
| `SlotLimiter.AdmittedBounded` | opencog/network/SocketManager.cc:84-106 | in every reachable state at most max sockets are admitted and the counter is waiters plus admitted |
| `SlotLimiter.StuckForever` | opencog/network/SocketManager.cc:84-106 | from a stuck state every continuation stays stuck and no waiter ever gets in |
| `SlotLimiter.ScheduleIsStuckRun` | opencog/network/SocketManager.cc:84-106 | for every max and every larger crowd there is a run into a stuck state |
| `SlotLimiter.StuckIff` | opencog/network/SocketManager.cc:84-106 | a stuck state is reachable if and only if more threads can wait at once than max |
| `GlobalBarrier.Manager.EnterRegion` | opencog/network/SocketManager.cc:316-323 | is the system's step `Enter` and keeps the invariant that the gate is shut exactly while somebody is inside |
| `GlobalBarrier.Manager.AllIdle` | opencog/network/SocketManager.cc:328-347 | the scan succeeds if and only if the system lets the caller pass over all other sockets, and then the caller may leave |
| `GlobalBarrier.Manager.LeaveRegion` | opencog/network/SocketManager.cc:356-366 | is the step `Leave`: the last one out opens the gate, anyone else leaves it shut |
| `GlobalBarrier.RunInv` | opencog/network/SocketManager.cc:294-367 | gate and per-call bookkeeping hold in every state of every run |
| `GlobalBarrier.GateIff` | opencog/network/SocketManager.cc:316-323 | the gate is shut exactly while some socket is inside the barrier |
| `GlobalBarrier.ConnectDisconnect` | opencog/network/SocketManager.cc:72-82 | a socket that comes and goes leaves everything as it was |
| `GlobalBarrier.LeaveMeansDrained` | opencog/network/SocketManager.cc:326-356 | at a leave every other shell is in a barrier, has nothing queued and nothing running, or came out of an overlapping barrier meanwhile |
| `GlobalBarrier.OverlapRun` | opencog/network/SocketManager.cc:336-338 | any two callers have a run in which one may leave while the other's shell still has work |
| `GlobalBarrier.EarlyLeaveIff` | opencog/network/SocketManager.h:95-105 | the promise that a leave finds all shells outside the barriers drained holds in all runs exactly when at most one socket ever calls the barrier |
| `GlobalBarrier.GateDrains` | opencog/network/SocketManager.cc:403-410 | with the gate shut no queue grows, each shell step takes one unit of work away and no other step changes the total |
| `GlobalBarrier.OutsidersDrain` | opencog/network/SocketManager.cc:325-354 | with the gate shut the shells outside the barriers can finish within that many steps, and are then all drained |
| `GlobalBarrier.NobodyWaitsOnABarrier` | opencog/network/SocketManager.cc:336-338 | then any socket inside can scan past the others and leave, whether or not they are in barriers |
| `GlobalBarrier.GateCanOpen` | opencog/network/SocketManager.cc:325-367 | from any state with the gate shut a path of at most one step per unit of work and three per socket inside takes every socket out and opens the gate |
| `GlobalBarrier.BarrierCanEnd` | opencog/network/SocketManager.cc:294-367 | and so from every reachable state |
| `RequestQueue.RequestManager.PushRequest` | opencog/cogserver/server/RequestManager.h:96-96 | is the step `Push` of the calling thread; an exception leaves the queue as it was, otherwise the request is the thread's own |
| `RequestQueue.RequestManager.ProcessRequests` | opencog/cogserver/server/RequestManager.cc:39-47 | a call with the mutex free is a path of the system that ends with the thread back: it executes exactly the queue, in order, and empties it; it throws if and only if cancelled and non-empty, and then changes nothing |
| `RequestQueue.RunInv` | opencog/cogserver/server/RequestManager.cc:39-47 | pushed = started then queued; started = finished then the one in hand; the mutex has the one holder |
| `RequestQueue.OneAtATimeInOrder` | opencog/cogserver/server/RequestManager.cc:39-47 | in every run requests start in push order, at most once, the next only after the last has finished, in at most one thread |
| `RequestQueue.PopNeverEmpty` | opencog/cogserver/server/RequestManager.cc:42-43 | the pop inside the loop never finds the queue empty |
| `RequestQueue.DrainedOnReturn` | opencog/cogserver/server/ServerConsole.cc:422-438 | a thread that pushed r and came back from `processRequests` without an exception knows r has finished, whoever ran it |
| `RequestQueue.ReturnFindsAllFinished` | opencog/cogserver/server/RequestManager.cc:42-47 | at that return everything anyone has pushed has finished |
| `RequestQueue.ThrowsOnlyWhenCancelled` | opencog/cogserver/server/RequestManager.h:99-99 | an exception leaves the loop only out of a pop on a cancelled queue, which removes nothing |
| `RequestQueue.MayPush` | opencog/cogserver/server/RequestManager.h:96-96 | any thread not waiting in `processRequests` may push, from inside a request too, behind the rest of the queue unless it is cancelled |
| `UseCount.ConsoleSocket.Get` | opencog/network/ConsoleSocket.h:71-71 | is the count's part of the step in which a request takes hold of the socket, and keeps the count equal to the number of holders |
| `UseCount.ConsoleSocket.Put` | opencog/network/ConsoleSocket.h:72-72 | is the count's part of the step in which a holder is cleared or deleted, and never wraps below zero |
| `UseCount.ConsoleSocket.TryPassWait` | opencog/network/ConsoleSocket.cc:42-44 | the destructor goes on if and only if no live request holds the socket, and otherwise nothing changes |
| `UseCount.Request.SetConsole` | opencog/cogserver/server/Request.cc:45-63 | is the system's step `SetConsole` or `Clear` and keeps request and sockets in agreement with it |
| `UseCount.Request.Destroy` | opencog/cogserver/server/Request.cc:29-43 | is the system's step `Delete`: a console still held is released, once |
| `UseCount.AcquireRelease` | opencog/cogserver/server/Request.cc:29-63 | setting and then clearing or deleting gives the count back |
| `UseCount.RunInv` | opencog/cogserver/server/Request.cc:29-63 | counts, holders and phases agree in every state of every run |
| `UseCount.CountsHolders` | opencog/network/ConsoleSocket.h:71-72 | the count is the number of live requests that hold the socket, so a release never underflows |
| `UseCount.GetsMatchPuts` | opencog/cogserver/server/Request.cc:29-63 | each get has at most one put, and exactly one once the request is gone |
| `UseCount.HolderProtects` | opencog/network/ConsoleSocket.cc:42-44 | a live holder's socket is not destroyed and has a positive count |
| `UseCount.DestroyedUnheld` | opencog/network/ConsoleSocket.cc:42-47 | the destructor can pass its wait exactly when no live request holds the socket; a destroyed socket is never held or touched |
| `UseCount.ComeAndHold` | opencog/cogserver/server/Request.cc:45-63 | a new socket and a new request can come, and then the count is one |
| `UseCount.WaitsForItsHolder` | opencog/network/ConsoleSocket.cc:42-47 | the destructor cannot pass while the request holds the socket, and can once it is deleted |
| `UseCount.ReleaseAfterDestructionFaults` | opencog/cogserver/server/Request.cc:29-56 | releasing a destroyed socket is what the model calls a fault |
| `LineDiscipline.LineDiscipline` | opencog/network/GenericShell.cc:268-469 | the two scanning loops compute the outcome function, out-of-range reads excluded |
| `LineDiscipline.NeverTheSentinel` | opencog/network/GenericShell.cc:268-469 | no line ever becomes the empty wake-up line |
| `LineDiscipline.PlainLine` | opencog/network/GenericShell.cc:435-469 | a line without telnet commands: SYN, CAN, ESC at its end give an interrupt, EOT or a lone period with no input pending leaves, anything else is queued as sent plus a newline, with every byte written out |
| `LineDiscipline.CommandTable` | opencog/network/GenericShell.cc:312-344 | after any text, IAC IP, AO, SUSP interrupt, EL, EC, ABRT, AYT, GA, NOP, WILL are ignored and EOF leaves, whatever follows |
| `LineDiscipline.DoTable` | opencog/network/GenericShell.cc:356-414 | IAC DO TIMING-MARK interrupts and any other DO is ignored |
| `LineDiscipline.SkippedAtTheEnd` | opencog/network/GenericShell.cc:432-469 | any other command at the end of a line leaves the line to its last byte |
| `LineDiscipline.GarbledIgnored` | opencog/network/GenericShell.cc:303-310 | a command that should be followed by another and is not makes the line ignored |
| `LineDiscipline.BreakThenMark` | opencog/network/GenericShell.cc:347-388 | BREAK and DO TIMING-MARK queue the line with a NUL at the break's position modulo 256 |
| `LineDiscipline.QueuedVerbatimIff` | opencog/network/GenericShell.cc:435-469 | without commands a line is queued, and then as sent plus a newline, exactly unless its end interrupts or leaves |
| `ShellQueue.WorkAppend` | opencog/network/GenericShell.cc:539-541 | what a queue holds besides wake-up lines, as lines are appended |
| `ShellQueue.RunInv` | opencog/network/GenericShell.cc:502-624 | handshake, phases of the three threads and the ledger of lines hold in every state of every run |
| `ShellQueue.Handshake` | opencog/network/GenericShell.cc:476-495 | in every interleaving, interrupts included, the assertion in `start_eval` holds and a line is begun only while `_eval_done` is true, in both loops |
| `ShellQueue.WaitsForTheEnd` | opencog/network/GenericShell.cc:529-550 | by itself the eval thread evaluates one line and then waits until someone has found the evaluation over, in both loops |
| `ShellQueue.QueueOpensAgain` | opencog/network/GenericShell.cc:565-570 | leaving the main loop undoes a cancellation, so what is pushed from then on is queued |
| `ShellLines.SelfDestructOnlyBy` | opencog/network/GenericShell.cc:451-458 | only a line that leaves, a closing socket and the destructor set `self_destruct`, and nothing clears it |
| `ShellLines.InterruptFlushes` | opencog/network/GenericShell.cc:231-262 | an interrupt left to itself empties the queue, signals, and comes back to a serving shell with nothing else changed |
| `ShellLines.SignalAfterFlush` | opencog/network/GenericShell.cc:236-261 | in any interleaving an interrupt signals only after it has found the queue empty |
| `ShellLines.InterruptLine` | opencog/network/GenericShell.cc:312-323 | from the bytes: telnet IP, AO, SUSP, or SYN, CAN, ESC at the end, empty the queue and do not end the shell |
| `ShellLines.LeaveLine` | opencog/network/GenericShell.cc:335-344 | from the bytes: EOT, a lone period or telnet EOF set `self_destruct`, cancel the queue without losing a line, and go on into the destructor |
| `ShellLines.CloseWakes` | opencog/network/GenericShell.cc:87-97 | a socket that closes puts the wake-up line behind the rest of the queue |
| `ShellLines.QueuedOrIgnored` | opencog/network/GenericShell.cc:192-212 | a queued line goes behind the rest, an ignored one changes nothing, and without discipline every line is queued as it is |
| `ShellQueue.InOrderAtMostOnce` | opencog/network/GenericShell.cc:231-262 | in every run, interrupts included, what is evaluated, in hand and queued is an in-order subsequence of the work queued, and nothing is evaluated more often than it was queued |
| `ShellQueue.DrainIsComplete` | opencog/network/GenericShell.cc:565-609 | without interrupts, work queued = evaluated, then in hand, then queued; at exit, by cancel or destructor, every line was evaluated exactly once in order |
| `ShellQueue.ShutdownDecreases` | opencog/network/GenericShell.cc:563-624 | once `self_destruct` is set every step of every thread decreases a measure |
| `ShellQueue.ShutdownNotStuck` | opencog/network/GenericShell.cc:87-110 | and until the eval thread has exited some thread can move |
| `ShellQueue.ShutdownCompletes` | opencog/network/GenericShell.cc:87-110 | so every continuation is of bounded length and can only end with the eval thread gone |
| `ShellQueue.Drainer.DrainQueue` | opencog/network/GenericShell.cc:580-617 | the drain loop is a path of the system to the eval thread's exit, and evaluates exactly the non-sentinel lines left, in order, whether or not the queue was cancelled |
| `Bits.XorTwice` | opencog/network/WebSocket.cc:131-140 | exclusive or with the same mask twice gives the number back, at any width |
| `Bits.XorBits` | opencog/network/WebSocket.cc:131-140 | each bit of an exclusive or is 1 exactly where the bits of the two numbers differ, at any width |
| `Bits.XorZeroSelf` | opencog/network/WebSocket.cc:131-140 | zero masks nothing and a number masks itself away |
| `Bits.XorWordBytes` | opencog/network/WebSocket.cc:129-136 | the bytes of a 32-bit exclusive or are the exclusive ors of the bytes |
| `WebSocket.UnmaskTwice` | opencog/network/WebSocket.cc:128-140 | masking is its own inverse for every payload and mask |
| `WebSocket.UnmaskedBits` | opencog/network/WebSocket.cc:128-140 | each bit of an unmasked octet differs from the masked one exactly where mask octet i mod 4 has a 1 |
| `WebSocket.UnmaskZeros` | opencog/network/WebSocket.cc:128-140 | a zero mask changes nothing |
| `WebSocket.XorFour` | opencog/network/WebSocket.cc:133-133 | one word exclusive-ored is four octets unmasked by the definition in section 5.3 of RFC 6455 |
| `WebSocket.UnmaskWords` | opencog/network/WebSocket.cc:128-136 | the bulk loop stays in bounds, does the whole words and leaves the rest as it was |
| `WebSocket.UnmaskTail` | opencog/network/WebSocket.cc:138-140 | the tail loop stays in bounds and does the bytes left over |
| `WebSocket.Unmask` | opencog/network/WebSocket.cc:128-140 | the two loops in place give octet i XOR mask octet i mod 4, for every length |
| `Frames.LengthRoundTrip` | opencog/network/WebSocket.cc:84-110 | the decoder reads back every length in every form with its mask bit, and refuses exactly those over 2^40 |
| `Frames.SendHeaderShortest` | opencog/network/WebSocket.cc:159-193 | the header is one of the RFC's forms and the shortest of those that fit, and with the mask bit set the decoder reads it back for every length up to 2^40 and none above |
| `Frames.DataRoundTrip` | opencog/network/WebSocket.cc:82-147 | a printed masked frame is read back: its payload, and exactly its bytes |
| `Frames.StreamRead` | opencog/network/WebSocket.cc:27-76 | any number of pings and pongs and then a text frame: exactly the text is returned, exactly those bytes are used, one pong per ping with its payload in order |
| `Frames.PongBytes` | opencog/network/WebSocket.cc:42-52 | up to 125 bytes a pong is FIN and opcode 10, the short length and the payload |
| `Frames.PongFaithfulIff` | opencog/network/WebSocket.cc:42-52 | read as a frame, the answer is a final pong with the ping's payload if and only if that is at most 125 bytes |
| `Frames.SentFrame` | opencog/network/WebSocket.cc:159-193 | what is sent is a final text frame with the payload, for every length up to 2^40 |
| `Frames.OnlyMasked` | opencog/network/WebSocket.cc:112-117 | data is read only off a frame with the mask bit set |
| `Frames.UnmaskedRefused` | opencog/network/WebSocket.cc:112-117 | a frame without it is refused, in every length form |
| `Frames.OtherOpcodesRefused` | opencog/network/WebSocket.cc:60-73 | any opcode but text, ping and pong is refused, close included, and nothing is sent |
| `Frames.CutFrameIsEof` | opencog/network/WebSocket.cc:82-126 | a stream that ends anywhere inside a frame is an end of stream |
| `Frames.LongPingMisanswered` | opencog/network/WebSocket.cc:42-52 | a ping of 126 bytes is answered with a frame that does not carry its payload |
| `Frames.FrameSocket.GetLength` | opencog/network/WebSocket.cc:84-110 | the reads of the length fields are the decoder, end of stream and refusal included |
| `Frames.FrameSocket.GetWebsocketData` | opencog/network/WebSocket.cc:82-147 | one frame's data with every error path, leaving the input just behind the frame |
| `Frames.FrameSocket.AnswerControl` | opencog/network/WebSocket.cc:40-52 | takes a control frame off the input and sends a pong exactly for a ping |
| `Frames.FrameSocket.GetWebsocketLine` | opencog/network/WebSocket.cc:27-76 | the loop returns what the stream function says, sends what it says, and leaves the input behind the text frame |
| `Frames.FrameSocket.SendWebsocket` | opencog/network/WebSocket.cc:159-193 | sends the header for the length and then the payload |
| `Base64.SixAfterShift` | opencog/network/WebSocket.cc:209-213 | what is shifted out of the wrapping accumulator is the RFC's 6-bit groups |
| `Base64.EncodeBytes` | opencog/network/WebSocket.cc:204-216 | the nested loops write the encoding up to the last whole 6-bit group |
| `Base64.Encode` | opencog/network/WebSocket.cc:200-220 | the output is the encoding of section 4 of RFC 4648, character by character, for every byte array |
| `Base64.Encoding` | opencog/network/WebSocket.cc:200-220 | the output has 4 * ceil(n / 3) characters |
| `Base64.LetterIsTable` | opencog/network/WebSocket.cc:213-213 | the letters are the 64 of the literal table |
| `Base64.EncodingIs` | opencog/network/WebSocket.cc:200-220 | every character is the table's at the index its six bits of the 24-bit group make, and from the end of the data on it is '=' |
| `Base64.Table` | opencog/cogserver/server/WebServer.cc:239-240 | the table built by the loop is the value of each character, -1 outside the alphabet |
| `Base64.Decode` | opencog/cogserver/server/WebServer.cc:235-255 | on any bytes, the whole octets in the leading alphabet characters |
| `Base64.ValueInEncoding` | opencog/network/WebSocket.cc:200-220 | each character of an encoding stands for its 6-bit group, or is padding |
| `Base64.EncodingPrefix` | opencog/cogserver/server/WebServer.cc:243-253 | the decoder reads exactly the characters before the padding, and as many bytes as went in |
| `Base64.RoundTrip` | opencog/cogserver/server/WebServer.cc:235-255 | decoding an encoding gives back every byte string |
| `StreamReader.LineEndAppend` | opencog/network/ServerSocket.cc:255-272 | how a line ends is decided by what has been seen of it, whatever comes after |
| `StreamReader.MatchEolOrEscape` | opencog/network/ServerSocket.cc:255-272 | stops just behind the first newline, EOT, or byte up to 0xf0 after an IAC, and at the end if and only if there is none; a newline before any escape is where it stops |
| `StreamReader.Connection.ReadUntilMatch` | opencog/network/ServerSocket.cc:278-278 | reads until a byte that stops the search, without losing any, and finds the same line end however the bytes come; at the end of the stream none was there |
| `StreamReader.Connection.ReadExactly` | opencog/network/ServerSocket.cc:291-296 | n bytes more, or the end of the stream, if and only if so many are left |
| `StreamReader.Connection.GetTelnetLine` | opencog/network/ServerSocket.cc:276-283 | the line is what precedes the first newline when no escape comes first; on any stream no byte is lost and no line holds a newline |
| `TelnetLines.PlainIsQuiet` | opencog/network/ServerSocket.cc:331-335 | bytes without EOT, 0xff and a line starting 0x01 0x21 are never cut short nor taken for D-Bus |
| `TelnetLines.Drain` | opencog/network/ServerSocket.cc:418-433 | the clean-up delivers the non-empty lines left in the buffer |
| `TelnetLines.NextLine` | opencog/network/ServerSocket.cc:326-341 | one turn: the line the bytes decide, never a D-Bus greeting, or the end of the loop |
| `TelnetLines.NonEmptyIs` | opencog/network/ServerSocket.cc:431-432 | the clean-up drops the empty lines and nothing else |
| `TelnetLines.HandleTelnet` | opencog/network/ServerSocket.cc:319-434 | for every chunking: on any stream the calls to `OnLine` begin with the lines before the first escape, and on a stream without escapes and D-Bus greetings they are exactly its lines and the stream is used up |
| `TelnetLines.QuietIsFixed` | opencog/network/ServerSocket.cc:319-350 | on a stream without escapes and D-Bus greetings the bytes alone decide every line |
| `TelnetLines.LinesOfTyped` | opencog/network/ServerSocket.cc:337-350 | lines typed with LF or CRLF come back as typed, and an unfinished one only if there is anything to it |
| `HttpKeepAlive.HttpSocket.FirstHttpLine` | opencog/network/WebSocket.cc:233-253 | the URL of a GET or POST line, anything else refused |
| `HttpKeepAlive.HttpSocket.SetContentLength` | opencog/network/WebSocket.cc:265-271 | the length by `std::stoi`, with its exceptions and the wrap of a negative value |
| `HttpKeepAlive.HttpSocket.HeaderField` | opencog/network/WebSocket.cc:262-294 | exactly the known spellings change the state, each its own field |
| `HttpKeepAlive.HttpSocket.HandshakeLine` | opencog/network/WebSocket.cc:230-311 | one line changes the fields as the transition function, refusals included |
| `HttpKeepAlive.HttpSocket.GetHttpBody` | opencog/network/ServerSocket.cc:286-303 | the next bytes of the stream, as many as declared, if and only if there are so many |
| `HttpKeepAlive.HttpSocket.HandleBody` | opencog/network/ServerSocket.cc:364-373 | the body is delivered under the URL, the stream is left right behind it, the state is reset |
| `HttpKeepAlive.HttpSocket.HandleHttp` | opencog/network/ServerSocket.cc:319-410 | for every chunking, the pairs delivered and the way the connection ends are what the bytes mean, up to the first escape byte inside a header |
| `HttpRequests.StoiOfDec` | opencog/network/WebSocket.cc:265-271 | a printed length is read back exactly up to the largest `int` and throws above |
| `HttpRequests.StoiReads` | opencog/network/WebSocket.cc:265-271 | white space, a sign, digits and a tail are read to the number, within 32 bits |
| `HttpRequests.StoiFails` | opencog/network/WebSocket.cc:265-271 | without a digit the reading throws |
| `HttpRequests.NegativeLength` | opencog/network/WebSocket.cc:265-271 | a negative length becomes 2^64 less its size |
| `HttpRequests.FieldEffects` | opencog/network/WebSocket.cc:262-292 | each known spelling changes its own part of the state, by exactly what follows it |
| `HttpRequests.OtherFieldsIgnored` | opencog/network/WebSocket.cc:263-294 | any other header line changes nothing |
| `HttpRequests.LengthRun` | opencog/network/WebSocket.cc:265-271 | a length field sets the length under a known name, is fatal when too large, and is ignored under any other name |
| `HttpRequests.SameRun` | opencog/network/ServerSocket.cc:349-375 | what is delivered depends only on the request in progress, not on host, keep-alive or keys seen before |
| `HttpRequests.UrlToTheEnd` | opencog/network/WebSocket.cc:237-244 | without a version the URL goes to the end of the line |
| `HttpRequests.OneHeader` | opencog/network/WebSocket.cc:230-311 | what any GET or POST header and any bytes after it come to: broken length, refused URL, upgrade, too short a stream, or the body and the next request |
| `HttpRequests.RefusedCloses` | opencog/network/WebSocket.cc:295-307 | a refused URL delivers nothing and closes the connection, unless the length already broke it |
| `HttpRequests.OnlyAccepted` | opencog/network/WebSocket.cc:295-307 | on any stream at all nothing is delivered under a URL that was not accepted |
| `HttpRequests.OtherVerbsRefused` | opencog/network/WebSocket.cc:245-251 | a first line that is neither GET nor POST closes the connection |
| `HttpRequests.GreetingCloses` | opencog/network/ServerSocket.cc:331-335 | a line starting 0x01 0x21 closes the connection |
| `HttpRequests.DeliveredIff` | opencog/network/ServerSocket.cc:286-303 | a request is delivered as sent if and only if its URL is accepted, its length fits an `int`, and its body is empty or its length field has a known name and no upgrade is asked for |
| `HttpRequests.CapitalsLoseTheBody` | opencog/network/WebSocket.cc:265-271 | a request whose length field is named `CONTENT-LENGTH` does not get its body delivered |
| `HttpRequests.KeepAliveRun` | opencog/network/ServerSocket.cc:349-375 | any number of requests with arbitrary bodies give exactly their (url, body) pairs and leave the socket at the first byte behind them, ready for the next |
| `HttpRequests.Converse` | opencog/network/ServerSocket.cc:309-410 | a whole connection over any chunking delivers exactly the pairs sent and ends at the end of the stream |
| `McpSplitter.SkipSpace` | opencog/cogserver/server/MCPServer.cc:85-87 | stops behind the leading whitespace |
| `McpSplitter.FindEnd` | opencog/cogserver/server/MCPServer.cc:92-130 | stops where the scanner closes the first brace, or at the end, with its depth |
| `McpSplitter.OnLine` | opencog/cogserver/server/MCPServer.cc:79-148 | terminates on every line and evaluates the pieces of the split, in order |
| `McpSplitter.SplitRebuilds` | opencog/cogserver/server/MCPServer.cc:83-148 | on any line, pieces and skipped whitespace rebuild it in order, and only whitespace is skipped |
| `McpSplitter.ScanIs` | opencog/cogserver/server/MCPServer.cc:98-130 | on any text the scan stops behind the first brace that is neither escaped nor quoted and brings the count of such braces back to zero, or at the end |
| `McpSplitter.ValuePasses` | opencog/cogserver/server/MCPServer.cc:98-130 | a JSON value nested in an object leaves the scanner as it found it, whatever its strings hold |
| `McpSplitter.ObjectScan` | opencog/cogserver/server/MCPServer.cc:98-130 | the scan of a JSON object stops exactly at its end, whatever follows |
| `McpSplitter.SplitObjects` | opencog/cogserver/server/MCPServer.cc:79-148 | any list of JSON objects with any whitespace around them is split into exactly those objects |
| `Tokenizer.Gather` | opencog/cogserver/server/ServerConsole.cc:290-308 | collects exactly what precedes the delimiter, never reading past index len |
| `Tokenizer.SkipBlanks` | opencog/cogserver/server/ServerConsole.cc:314-316 | stops behind the blanks |
| `Tokenizer.Turn` | opencog/cogserver/server/ServerConsole.cc:288-319 | each turn takes one token or one run of blanks off the line and moves forward |
| `Tokenizer.SimpleTokenize` | opencog/cogserver/server/ServerConsole.cc:282-322 | terminates on every line and returns its tokens |
| `Tokenizer.UnclosedQuote` | opencog/cogserver/server/ServerConsole.cc:289-299 | a quote that is never closed takes the rest of the line as the last token |
| `Tokenizer.RoundTrip` | opencog/cogserver/server/ServerConsole.cc:282-322 | any list of tokens, quoted or bare, with blanks between, comes back as the list |

## Assumptions

* `concurrent_queue` is not part of the repository: it is a sequence with a cancelled flag, push and
  pop are atomic and first-in first-out, and a pop on a cancelled queue throws and removes nothing.
* The host is little-endian. Widths of 8 and 32 bits and `size_t` are modelled where they matter.
* For the global barrier, each of these is one atomic step: entering (marking the socket and shutting
  the gate), passing the gate and pushing, popping and starting, and leaving (unmarking, looking for
  others, opening the gate). The scan itself is not one step: it looks at sockets one by one while
  other threads go on.
* An evaluation terminates, and a poll finds out.
* Fewer than 2^32 threads wait and fewer than 2^32 requests live at once.
* In `RecvBarrier` each UUID is called exactly n times with the same n, as the header asks of clients
  (opencog/network/SocketManager.h:107-113), n = 0 standing for 256; `BarrierMisuse` drops all of that.

## Left out

- Sockets as such: asio, `Exit`, `half_ping`, accept and bind, thread creation and cancellation, and read errors other than the end of the stream.
- The second look at `available()` after an end of stream: an end of stream is one after which nothing more is there to read.
- The stall statistic, line counts, status words, prompts, help texts and the stats page.
- The reply to a WebSocket upgrade with its SHA-1: an HTTP connection is followed up to the upgrade and frames are a model of their own.
- Bytes that arrived with the upgrade request and sit in the line buffer when frames begin: the two readers are not joined.
- The `RuntimeException` path of the shell's main loop, and interrupts after the evaluator is gone.
- Memory reclamation of `unordered_map` nodes and condition variables inside a barrier entry: an erased entry is absent, and a waiter that would look at it is a fault.
- ShellQueue.DrainIsComplete: is about runs without an interrupt, because an interrupt discards queued lines on purpose; `ShellQueue.InOrderAtMostOnce` is about all runs.
- TelnetLines.HandleTelnet: promises no chunk-independence from the first line with EOT or 0xff on, because there the line read depends on what had arrived with the escape byte.
- HttpKeepAlive.HttpSocket.HandleHttp: after an escape byte inside a header it promises only the pairs delivered before it, for the same reason.
- McpSplitter.OnLine: models the path without a shell; with one the line goes to the shell's queue. The brace count is unbounded where the source has an `int`.
- LineDiscipline.LineDiscipline: leaves out the telnet replies it prints, which do not decide what becomes of the line.
- Request.execute and the requests themselves, the evaluators and the shells derived from the generic one.
- Module loading, MCP tools and plug-ins, the page server, and the Python and Scheme wrappers.
