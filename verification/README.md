# Verification of the Yaskawa High Speed Ethernet Server client

Dafny models of the asynchronous client, of the RPC server built on it, and of the wire format, with proofs of
what they do over whole runs. `dafny verify dfyconfig.toml` checks everything.

## What is modelled

**Sessions and their client** (`include/yaskawa_ethernet/udp`, `src/udp/client.cpp`).

- `Sessions.dfy` says in closed form, without recursion, what a handler of one session does to the shared state.
- `SessionObjects.dfy` has the classes. `MultiCommandSession.Resolve`, `StopSessions`, `CommandSession.Resolve` and
  `PartDone` call each other as in the source. They end because each turn sets a `done` flag that was not set, and
  they compute exactly the closed forms.
- `Engine.dfy` is the whole client as a machine whose steps are single events: a user call, a datagram that is sent,
  lost or delivered, a timer that expires, or the oldest queued handler. `Runs.dfy` holds the theorems over all runs.
- `RequestIds.dfy` is about the 8-bit request id: when it goes wrong, exactly, and the window in which it never does.
- `Causes.dfy` compares the results of a run with its events alone: what every outcome comes from, and that nothing
  which completes is lost.
- `Lifetime.dfy` is about sends that complete late: exactly when a handler is left after the release of its session.

**RPC server** (`src/rpc_server`). `Rpc.dfy` is the server with a robot and two FIFO channels, `RpcRuns.dfy` holds the
theorems over runs, `RpcStatus.dfy` those about the status that is written, `RpcObjects.dfy` the class.

**File sessions** (`src/udp/read_file.hpp`, `src/udp/write_file.hpp`). `FileTransfer.dfy` is about blocks,
`FileObjects.dfy` has the classes, `FileWire.dfy` carries the round trip through headers and payload bytes, and
`FileSessions.dfy` shows that the file sessions follow the sessions of `Engine.dfy`.

**Wire format.** `Wire.dfy` (integers and headers), `Positions.dfy`, `Variables.dfy`, `Commands.dfy` and
`Meanings.dfy` (requests, and what their bytes determine), `Layouts.dfy` (every request and the replies to reads, byte
by byte, in the numbers of the protocol) and `FileList.dfy`. The classes `Wire.Output` and `Wire.Input`
are the buffers that the encoders append to and the decoders consume.

**Connecting** (`src/connect.hpp`). `Connect.dfy` interleaves single atomic actions of three handlers,
`ConnectObjects.dfy` is the class.

## Where the source departs from its evident intent

The source is modelled as written. Where it plainly means something else, a parameter of the model selects the repair,
and the theorems say what holds with it and what happens without it.

- `blocks_received_` is compared but never incremented (`src/udp/read_file.hpp:134`): parameter `counts`.
  `FileTransfer.ReaderAsWritten` says exactly what the reader does without it: files of one block only.
- `writeNextBlock` is never called (`src/udp/write_file.hpp:148-159`): parameter `continues`.
  `FileTransfer.WriterAsWritten`: an upload can succeed exactly when the file is empty.
- The writer computes bit `0x8000000` for the last block, the reader tests `0x80000000`, and the computed number is not
  passed to the header (`src/udp/write_file.hpp:129-133`): parameter `flags`. `FileTransfer.NoFlagNoSuccess`: without
  the reader's bit no download succeeds.
- `finger` is never advanced (`src/udp/protocol.cpp:302-307`): parameter `advance` of `FileList.Rounds`.
  `FileList.AsWritten`: the loop ends only on data of at most one byte.
- User frame 16 is encoded but rejected on decoding, and user frame 0 is decoded as the robot frame
  (`src/udp/decode.cpp:113-115`): `Positions.FrameRoundTrip`, `Positions.UserFrameAccepted`, `Positions.UserFrameZeroIsLost`.
- The header of `MoveL` carries the command number of `read_robot_position` and the service `get_all`
  (`src/udp/protocol.cpp:133-140`), although `move_cartesian` is defined. The model sends what the source sends.
- `ReadCurrentPosition` adds the control group to an offset that depends on the coordinate system, so different requests
  can coincide: `Commands.PositionRequestsAgree` says when.
- The client is documented to return a functor that stops a command; it returns nothing
  (`include/yaskawa_ethernet/udp/client.hpp:113-118`). `impl::sendCommand` returns the session. The step `Cancel` is
  what its `resolve` does; for several commands that member would pass a result where an error is expected, and the
  step covers the `resolve` of `MultiCommandSession` instead.
- The RPC server clears the busy flag when the session of the status write ends for any reason
  (`src/rpc_server/rpc_server.cpp:114-117`). If that is a timeout, one request can be executed twice.
  `Rpc.Harmless` is the exact condition: with it `RpcRuns.ExactlyOnce` holds, and from every state without it
  `RpcRuns.HarmfulTimeoutRepeats` gives a continuation with one execution too many.
- A reply that is late by 256 commands ends the wrong command: `RequestIds.LateReplyIsMisdelivered`.
- The send handler of a command captures a raw pointer (`include/yaskawa_ethernet/udp/impl/send_command.hpp:113-115`).
  The posted release covers the handlers that are queued before it, but not that of a send which is still outstanding
  when the deadline or the user ends the session. `Lifetime.LeftAfterRelease` is the exact condition,
  `Lifetime.TouchedAfterTimeout` a run, and `Lifetime.SuccessIsSafe` says that sessions which succeed are safe.
- The intended writer sends nothing for an empty file, while the reader waits for an empty last block:
  `FileTransfer.EndToEnd` and `FileTransfer.EmptyFile`.
- Registering several commands stops with an exception at the first id that is in use. The commands before it stay
  registered although no timer will ever end them: `SessionObjects.SendMultipleCommands`.

## Assumptions

- Events are atomic on one executor with a FIFO queue (except in `Connect.dfy`). A send completes at any time after its
  start, which queues its handler; cancelling a pending wait queues its aborted handler. What a user does inside a
  callback is a later step. A handler that uses a released session finds its memory as it was, and this is recorded.
- An engine step `Start` needs ids that are not registered. `RequestIds.RegisterThrowsIff` says when `registerHandler`
  throws instead, and `RequestIds.NeverTaken` that it never does within the window.
- The robot sets a register to `requested` only if it is not, answers in order and loses nothing; sessions may end early
  at any time. `base_register` and the number of registers read stay within 256. An execution calls `resolve` once,
  at any time, also before `execute` returns.
- File names and listings are bytes; files have fewer than 2^31 blocks.
- Coordinates are exact reals that convert to 32 bits, a `float` is the pattern of its 32 bits, `result |= x << 8 * i`
  is a sum.

## Model

| member | source | states |
|---|---|---|
| `SessionObjects.OneFlagLess` | include/yaskawa_ethernet/udp/impl/send_command.hpp:118-122 | setting one unset `done_` flag lowers the measure of the mutual recursion |
| `SessionObjects.StoppedOneMore` | include/yaskawa_ethernet/udp/impl/send_multiple_commands.hpp:140-146 | one more turn of `stop_sessions_` ends one more open sub-session, frees its id, and leaves the next one as it was |
| `SessionObjects.Client.constructor` | include/yaskawa_ethernet/udp/client.hpp:67-71 | ids start at 1, no handler is registered |
| `SessionObjects.Client.AllocateId` | include/yaskawa_ethernet/udp/client.hpp:108-111 | returns the counter, which wraps at 256 |
| `SessionObjects.Client.RegisterHandler` | src/udp/client.cpp:65-69 | throws exactly if the id is taken, and then leaves the table as it was |
| `SessionObjects.Client.RemoveHandler` | src/udp/client.cpp:71-73 | removes exactly that id |
| `SessionObjects.Client.OnReceive` | src/udp/client.cpp:145-156 | dispatches by id; the session then is what the closed form says; without a handler nothing is touched |
| `SessionObjects.Executor.RunNext` | include/yaskawa_ethernet/udp/impl/deadline_session.hpp:69-73 | the oldest handler runs: timer, send completion or release |
| `SessionObjects.RegisteredHolds` | src/udp/client.cpp:65-69 | after a row of registrations the table holds what it held, and exactly the commands before the first id in use |
| `SessionObjects.CommandSession.Start` | include/yaskawa_ethernet/udp/impl/send_command.hpp:99-116 | throws if started before or if the id is taken; otherwise registered, with an outstanding send |
| `SessionObjects.CommandSession.Finish` | include/yaskawa_ethernet/udp/impl/send_command.hpp:118-120 | flag set and own handler removed, nothing else changed, measure lower |
| `SessionObjects.CommandSession.Resolve` | include/yaskawa_ethernet/udp/impl/send_command.hpp:118-122 | the recursion through the callback ends and computes `Sessions.ResolveCmd` |
| `SessionObjects.MultiCommandSession.InitSessions` | include/yaskawa_ethernet/udp/impl/send_multiple_commands.hpp:121-128 | sub-sessions with consecutive ids, empty results |
| `SessionObjects.MultiCommandSession.StartSessions` | include/yaskawa_ethernet/udp/impl/send_multiple_commands.hpp:130-137 | throws at the first id that is taken; in any case exactly the commands before it are registered and being sent |
| `SessionObjects.MultiCommandSession.Start` | include/yaskawa_ethernet/udp/impl/send_multiple_commands.hpp:90-94 | the same for all sub-sessions, once |
| `SessionObjects.MultiCommandSession.PartDone` | include/yaskawa_ethernet/udp/impl/send_multiple_commands.hpp:96-108 | an error resolves the session, a result is kept at its index, the last one resolves with success |
| `SessionObjects.MultiCommandSession.Resolve` | include/yaskawa_ethernet/udp/impl/send_multiple_commands.hpp:110-118 | the re-entrant recursion ends and computes `Sessions.ResolveJob` |
| `SessionObjects.MultiCommandSession.StopSessions` | include/yaskawa_ethernet/udp/impl/send_multiple_commands.hpp:139-146 | exactly the open sub-sessions end as aborted and only their ids are freed, although each calls back into `Resolve` |
| `SessionObjects.DeadlineSession.CancelTimeout` | include/yaskawa_ethernet/udp/impl/deadline_session.hpp:85-87 | a pending wait is queued as aborted, otherwise nothing happens |
| `SessionObjects.DeadlineSession.OnDone` | include/yaskawa_ethernet/udp/impl/send_command.hpp:136-152 | cancel, user callback, posted release, in this order |
| `SessionObjects.DeadlineSession.OnSent` | include/yaskawa_ethernet/udp/impl/send_command.hpp:112-115 | an outstanding send completes at any time: its handler is queued with the error it has; what that does is `Causes.VerdictsHaveCauses` and `Causes.NothingLost` |
| `SessionObjects.DeadlineSession.Resolve` | include/yaskawa_ethernet/udp/impl/deadline_session.hpp:81-83 | resolves the session inside, `Sessions.ResolveTop` |
| `SessionObjects.DeadlineSession.OnTimer` | include/yaskawa_ethernet/udp/impl/deadline_session.hpp:69-73 | the three branches, with the one that resolves twice |
| `SessionObjects.SendMultipleCommands` | include/yaskawa_ethernet/udp/impl/send_multiple_commands.hpp:149-176 | throws exactly if some id is taken, and then leaves the commands before it registered; otherwise the new session in full: commands, table, sends, timer |
| `SessionObjects.SendCommand` | include/yaskawa_ethernet/udp/impl/send_command.hpp:132-154 | the same for one command |
| `SessionObjects.AllFreeIff` | src/udp/client.cpp:65-69 | registering one after the other never throws exactly if no id is in the table and no two are equal |
| `SessionObjects.NoThrowIff` | include/yaskawa_ethernet/udp/client.hpp:108-111 | in terms of the counter: at most 256 commands and none of the next ids in the table |
| `Engine.EndPart` | include/yaskawa_ethernet/udp/impl/send_multiple_commands.hpp:96-118 | one sub-command ending keeps the session's invariant and touches only the session, in all cases of the callback |
| `Engine.EndSingle` | include/yaskawa_ethernet/udp/impl/send_command.hpp:118-122 | the same for a single command and for a file session |
| `Engine.ResolveCmdKeeps` | include/yaskawa_ethernet/udp/impl/send_command.hpp:118-122 | `resolve` in any state keeps the invariant, ends the command, and reports exactly what that owes the user |
| `Engine.ResolveTopKeeps` | include/yaskawa_ethernet/udp/impl/deadline_session.hpp:81-83 | resolving from outside reports the failure exactly if nothing was reported before |
| `Engine.TimerHandlerKeeps` | include/yaskawa_ethernet/udp/impl/deadline_session.hpp:69-73 | of the two resolves after a failed wait the second changes nothing |
| `Engine.PutKeeps` | src/udp/client.cpp:145-156 | what one session does to the shared table and queue keeps the invariant of every other session |
| `Engine.StartAgrees` | include/yaskawa_ethernet/udp/client.hpp:102-111 | new registrations keep table and open commands in agreement across the wrap of the id |
| `Engine.StartKeeps` | include/yaskawa_ethernet/udp/impl/send_multiple_commands.hpp:149-176 | starting a session keeps the whole invariant |
| `Engine.ReceiveKeeps` | src/udp/client.cpp:128-157 | receiving any datagram keeps the whole invariant |
| `Engine.SentKeeps` | include/yaskawa_ethernet/udp/impl/send_command.hpp:112-115 | a send may complete at any time, also behind the release, and keeps the invariant |
| `Engine.RunSend` | include/yaskawa_ethernet/udp/impl/send_command.hpp:113-115 | the handler of a send keeps the invariant, also when it finds its session done or released |
| `Engine.RunRelease` | include/yaskawa_ethernet/udp/impl/send_command.hpp:140-144 | a release runs when only handlers of late sends of its session are left, and keeps the invariant |
| `Engine.NextKeeps` | src/udp/client.cpp:120-157 | every event keeps the invariant of the whole client |
| `Runs.HandlerTable` | src/udp/client.cpp:65-73 | after every run an id is a key of `requests_` iff exactly one command that is started and not done has it, and then it maps to that command |
| `Runs.DemandDecides` | include/yaskawa_ethernet/udp/impl/send_command.hpp:104-122 | one event: the callback runs iff it has not run and the event asks for it, with what the event asks for |
| `Runs.FirstEventWins` | include/yaskawa_ethernet/udp/impl/deadline_session.hpp:65-74 | over any order of replies, send completions and errors, timers, cancels and late datagrams the callback has the outcome of the first event that asked; `Causes.VerdictsHaveCauses` says what happened before such an event |
| `Runs.CalledOnce` | include/yaskawa_ethernet/udp/impl/send_command.hpp:118-122 | at most one call, and no later event changes it |
| `Runs.AllOrNothing` | include/yaskawa_ethernet/udp/impl/send_multiple_commands.hpp:96-118 | at the callback every command has ended and no id of the session is registered; success has one result for each command, result i from command i |
| `Runs.CompleteRun` | include/yaskawa_ethernet/udp/impl/deadline_session.hpp:65-74 | with nothing queued and no wait pending, the callback has run exactly once and the session is released, whether its sends have completed or not; if they have, no handler refers to it |
| `Causes.VerdictsHaveCauses` | include/yaskawa_ethernet/udp/impl/send_command.hpp:104-115 | over the events of any run: a session fails with a send, a timeout or a timer error only if a send of it failed, its wait expired or its wait failed, with a reply only if that one was delivered and bad, or the user cancelled it so; a success is made of delivered good replies |
| `Causes.OutcomesHaveCauses` | include/yaskawa_ethernet/udp/impl/send_command.hpp:104-115 | the same for each command; those of several may also be aborted |
| `Causes.OtherwiseReplies` | include/yaskawa_ethernet/udp/impl/send_command.hpp:112-115 | without a failed send, an ended wait or a cancel, a session ends in success or with a bad reply |
| `Causes.NothingLost` | include/yaskawa_ethernet/udp/impl/deadline_session.hpp:65-74 | with nothing queued, every session whose wait expired or failed or which was cancelled has called back, and every command with a failed send is done |
| `Lifetime.NothingElseAfterRelease` | include/yaskawa_ethernet/udp/impl/send_command.hpp:140-144 | after the release no timer, table entry or queue entry refers to the session, except handlers of sends that were outstanding at the callback; only these can have used it |
| `Lifetime.LateStep` | include/yaskawa_ethernet/udp/impl/send_command.hpp:136-144 | the number of late sends is that of the sends outstanding at the event that posts the release, and never changes again |
| `Lifetime.LeftAfterRelease` | include/yaskawa_ethernet/udp/impl/send_command.hpp:140-144 | over any run from that event to the release, as many handlers are left after the release as sends were outstanding at the event |
| `Lifetime.LateSendTouches` | include/yaskawa_ethernet/udp/impl/send_command.hpp:113-115 | from any state with such a send a run leads to the use of the released session |
| `Lifetime.TouchedAfterTimeout` | include/yaskawa_ethernet/udp/impl/deadline_session.hpp:65-74 | a run from the start: the deadline releases the session, then its send fails |
| `Lifetime.SuccessIsSafe` | include/yaskawa_ethernet/udp/impl/send_multiple_commands.hpp:158-166 | if replies come after the sends they answer, within the window of ids, a session that succeeds has no handler left at its release |
| `RequestIds.RegisterThrowsIff` | src/udp/client.cpp:65-69 | registration throws exactly if an open command has the same serial number modulo 256 |
| `RequestIds.IdsWrap` | include/yaskawa_ethernet/udp/client.hpp:108-111 | the first id is 1, 255 is followed by 0, and two commands share an id exactly if their serial numbers are equal modulo 256 |
| `RequestIds.MisdeliveredIff` | src/udp/client.cpp:145-155 | a reply reaches another command than its own exactly if one is open with the same id |
| `RequestIds.NeverTaken` | include/yaskawa_ethernet/udp/client.hpp:108-111 | if command k ended and its replies are gone before allocation k+256, no registration throws |
| `RequestIds.OwnHandler` | src/udp/client.cpp:145-155 | within the window a reply finds its own command or none |
| `RequestIds.WindowKept` | src/udp/client.cpp:145-155 | every step within the window keeps what the two lemmas above need |
| `RequestIds.WindowRun` | include/yaskawa_ethernet/udp/client.hpp:108-111 | every run within the window is possible, without any assumption about free ids |
| `RequestIds.NoAliasing` | src/udp/client.cpp:145-155 | in every such run each command ended by a reply was ended by the reply to itself |
| `RequestIds.ResultsAreReplies` | include/yaskawa_ethernet/udp/impl/send_multiple_commands.hpp:101-107 | and result i of several commands is the reply to command i |
| `RequestIds.LateReplyIsMisdelivered` | src/udp/client.cpp:145-155 | the window is needed: a run in which command 256 ends with the reply to command 0 |
| `Rpc.CountCovers` | src/rpc_server/rpc_server.cpp:78-80 | the number of registers read is even, and covers all services exactly up to 254 of them, with at most one too many |
| `Rpc.ServiceKeeps` | src/rpc_server/rpc_server.cpp:77-120 | every timely step keeps the invariant over busy flag, register, reads, writes and acknowledgements of each service |
| `Rpc.NextWellFormed` | src/rpc_server/rpc_server.cpp:92-94 | without any assumption on time, every status index that is read is in range |
| `Rpc.NextKeeps` | src/rpc_server/rpc_server.cpp:47-120 | the invariant of all services, under every timely step |
| `RpcRuns.ExactlyOnce` | src/rpc_server/rpc_server.cpp:92-120 | in every timely run, with executions that resolve at once or later, the requests raised are the executions, plus the one request not yet seen if there is one |
| `RpcRuns.NeverOverwritten` | src/rpc_server/rpc_server.cpp:112-114 | a status write lowers exactly the request that was served, never a later one |
| `RpcRuns.MutualExclusion` | src/rpc_server/rpc_server.cpp:101-120 | at most one execution at a time; busy is set exactly from the execution to the end of the status write, and is released |
| `RpcRuns.BeginsExactly` | src/rpc_server/rpc_server.cpp:91-104 | in any state an execution begins exactly when the reply to an open read arrives that covers the service and shows its register as 1, and it is not busy |
| `RpcRuns.HarmfulTimeoutRepeats` | src/rpc_server/rpc_server.cpp:114-117 | the condition of the three theorems is needed: after any harmful timeout the run can go on to one execution too many |
| `RpcRuns.HarmfulTimeoutReachable` | src/rpc_server/rpc_server.cpp:57-62 | and without a delay between reads one request is enough to get there |
| `RpcRuns.Polling` | src/rpc_server/rpc_server.cpp:47-51 | open reads and pending waits never exceed the successful starts |
| `RpcRuns.NeverStopsPolling` | src/rpc_server/rpc_server.cpp:57-98 | in every run a started server has a read open or a wait pending |
| `RpcRuns.Paced` | src/rpc_server/rpc_server.cpp:57-75 | with a delay every read comes from a start or from a wait that ran out, one each; without a delay there are no waits, and a started server always has a read open |
| `RpcRuns.AfterStop` | src/rpc_server/rpc_server.cpp:53-75 | after a `stop` that no `start` follows, each read uses up a wait that was pending at that moment |
| `RpcStatus.WritesAreResolutions` | src/rpc_server/rpc_server.cpp:108-114 | in every run the status writes are those of the executions that resolved, in their order: 2 after an error, 0 otherwise |
| `RpcStatus.StatusLands` | src/rpc_server/rpc_server.cpp:107-114 | when the robot has handled the status write of an execution, the register `base + i` of its service holds 2 if that execution resolved with an error, 0 if not |
| `RpcStatus.StatusStays` | src/rpc_server/rpc_server.cpp:108-114 | and keeps it until the robot requests the service again or handles another status write for it |
| `RpcObjects.RpcServer.AddService` | include/yaskawa_ethernet/rpc_server/rpc_server.hpp:105-108 | a new idle service at the end, the others unchanged |
| `RpcObjects.RpcServer.Start` | src/rpc_server/rpc_server.cpp:47-51 | true exactly if it was stopped, and then one read is sent |
| `RpcObjects.RpcServer.Stop` | src/rpc_server/rpc_server.cpp:53-55 | true exactly if it was started; nothing else changes |
| `RpcObjects.RpcServer.ReadCommands` | src/rpc_server/rpc_server.cpp:77-98 | one read of an even number of registers, remembering the number of services |
| `RpcObjects.RpcServer.StartReadCommandsTimer` | src/rpc_server/rpc_server.cpp:57-75 | read at once without a delay, otherwise arm the wait; `RpcRuns.NeverStopsPolling` and `RpcRuns.Paced` are what this is for |
| `RpcObjects.RpcServer.OnTimer` | src/rpc_server/rpc_server.cpp:66-74 | a failed wait is armed again, an expired one reads |
| `RpcObjects.RpcServer.OnStatuses` | src/rpc_server/rpc_server.cpp:83-98 | exactly the services that are requested and not busy are executed, those that resolve at once are written in order, then the server polls on if started |
| `RpcObjects.RpcServer.ExecuteAll` | src/rpc_server/rpc_server.cpp:91-94 | the loop, in which executions and status writes alternate, comes to all executions first and all writes after them |
| `RpcObjects.RpcServer.Execute` | src/rpc_server/rpc_server.cpp:101-120 | begun exactly if not busy; no other service changes |
| `RpcObjects.RpcServer.OnResolved` | src/rpc_server/rpc_server.cpp:108-114 | the status is written also after an error; which one is `RpcStatus.StatusLands` |
| `RpcObjects.RpcServer.OnStatusWritten` | src/rpc_server/rpc_server.cpp:114-117 | the busy flag is cleared whatever the result |
| `FileTransfer.DownloadKeeps` | src/udp/read_file.hpp:118-157 | in every run accepted blocks are numbered 1, 2, 3, ..., the buffer is their payloads, each is acknowledged once in order, one callback, success exactly on the last-block bit |
| `FileTransfer.ReaderVerdict` | src/udp/read_file.hpp:127-141 | as long as the callback has not run all that arrived was accepted; the next event decides: a failure is reported as it is, a status other than 0 as a failed command, a number out of turn as malformed; any other block is acknowledged, and with bit 0x80000000 the result is all payloads in order |
| `FileTransfer.ReaderStays` | src/udp/read_file.hpp:152-157 | nothing changes after the callback |
| `FileTransfer.RemainingIff` | src/udp/write_file.hpp:126 | the unsigned difference does not wrap exactly while not more than the file was sent |
| `FileTransfer.Segmentation` | src/udp/write_file.hpp:117-145 | the first n payloads are the first `bytesSent()` bytes; all of the data exactly after ceil(size/479) blocks; block k is bytes 479k up to 479k + 479 or the end, under number k + 1, with bit 0x80000000 on the one that ends the data if there are flags |
| `FileTransfer.DeliverAny` | src/udp/read_file.hpp:127-141 | the reader after any sequence of blocks of a file, repeated, reordered or missing |
| `FileTransfer.RoundTrip` | src/udp/read_file.hpp:127-141 | success exactly if the sequence begins with the whole file in order, and then with exactly the data; otherwise an error at the first block out of turn |
| `FileTransfer.ReaderAsWritten` | src/udp/read_file.hpp:131-140 | the reader of the source: correct for one block, never done or an error for more |
| `FileTransfer.DuplicateTaken` | src/udp/read_file.hpp:134-137 | as written, a first block that is repeated is taken twice and other data succeeds |
| `FileTransfer.NoFlagNoSuccess` | src/udp/read_file.hpp:132-140 | without the reader's last-block bit no run succeeds |
| `FileTransfer.UploadStepKeeps` | src/udp/write_file.hpp:148-175 | every event keeps the invariant of the writer |
| `FileTransfer.UploadKeeps` | src/udp/write_file.hpp:117-175 | in every run the blocks sent are a prefix of the file's blocks, one callback, success only with the whole file sent |
| `FileTransfer.WriterVerdict` | src/udp/write_file.hpp:148-159 | as long as the callback has not run one block was sent for each event; the next event decides: a failure as it is, a status other than 0 as a failed command, a payload, no acknowledgement or another number as malformed; otherwise success exactly if 479 bytes for each number cover the file, else the next block |
| `FileTransfer.WriterStays` | src/udp/write_file.hpp:170-175 | nothing changes after the callback |
| `FileTransfer.WriterAsWritten` | src/udp/write_file.hpp:148-159 | the writer of the source can succeed exactly for the empty file, and never sends a block |
| `FileTransfer.UploadGoesOn` | src/udp/write_file.hpp:148-159 | acknowledged block by block, the repaired writer ends in success |
| `FileTransfer.EndToEnd` | src/udp/write_file.hpp:124-159 | the repaired writer succeeds for every file, and what it sends is read back as exactly the file, exactly if the file is not empty |
| `FileTransfer.EmptyFile` | src/udp/read_file.hpp:131-140 | the reader of an empty file needs the one empty last block that the writer does not send |
| `FileWire.BlockArrives` | src/udp/client.cpp:136-155 | a block in a reply reaches the session as it was sent, exactly if it has at most 479 bytes |
| `FileWire.BytesRoundTrip` | src/udp/read_file.hpp:127-141 | the round trip over datagrams, among any that are malformed or for other requests |
| `FileWire.BlockSent` | src/udp/write_file.hpp:132-138 | all 32 bytes of the header and the payload: block requests with division 2, service 0x15 and no flag, acknowledgements with division 2, service 0x16, the flag, the number of the block and no payload |
| `FileWire.AckArrives` | src/udp/write_file.hpp:148-155 | an acknowledgement of the robot is what the writer checks for |
| `FileWire.FieldsReceived` | src/udp/decode.cpp:36-89 | both sessions see every good response with their id, with its status at byte 25, its number at bytes 12 to 15 and its payload from byte 32 on |
| `FileWire.EndToEndInBytes` | src/udp/write_file.hpp:124-159 | from writer to robot to reader in bytes: exactly the file, for every file that is not empty |
| `FileSessions.BlockIsReply` | src/udp/read_file.hpp:127-157 | a block does to the reader what a reply does to a file session of the client, with one send for each acknowledgement, that of the last block too |
| `FileSessions.ReaderFailure` | src/udp/read_file.hpp:143-157 | so do failures, also after the end |
| `FileSessions.AckIsReply` | src/udp/write_file.hpp:148-175 | the same for acknowledgements to the writer, with one send for each block |
| `FileSessions.WriterFailure` | src/udp/write_file.hpp:161-175 | and for its failures |
| `FileObjects.ReadFileSession.StopSession` | src/udp/read_file.hpp:152-157 | once only: timer cancelled, handler removed, one callback |
| `FileObjects.ReadFileSession.OnResponse` | src/udp/read_file.hpp:127-141 | the branches in their order, and the new state in full |
| `FileObjects.WriteFileSession.BytesSent` | src/udp/write_file.hpp:117-119 | the smaller of the bytes in the blocks sent and the file |
| `FileObjects.WriteFileSession.WriteNextBlock` | src/udp/write_file.hpp:124-145 | sends the next block of the segmentation and counts it |
| `FileObjects.WriteFileSession.StopSession` | src/udp/write_file.hpp:170-175 | once only: timer cancelled, handler removed, one callback |
| `FileObjects.WriteFileSession.OnResponse` | src/udp/write_file.hpp:148-159 | the branches in their order, keeping the writer's invariant |
| `Wire.UnsignedRoundTrip` | src/udp/decode.hpp:44-53 | unsigned values that fit come back |
| `Wire.SignedRoundTrip` | src/udp/decode.hpp:44-53 | signed values that fit come back, in two's complement |
| `Wire.BytesRoundTrip` | src/udp/encode.hpp:58-64 | bytes come back in the other direction |
| `Wire.SameBytes` | src/udp/encode.hpp:58-64 | values that agree modulo 256^width are written alike |
| `Wire.LowByteFirst` | src/udp/decode.hpp:44-60 | for one, two and four bytes: the value as a sum of literal weights, low byte first, and what the sign bit takes away |
| `Wire.HeaderLayout` | src/udp/encode.cpp:77-112 | every field of a request header is at its place, with literal offsets and constants, and reads back |
| `Wire.ResponseLayout` | src/udp/decode.cpp:36-89 | which bytes make a response acceptable, and the place of each of its fields, in literal offsets |
| `Wire.ResponseRoundTrip` | src/udp/decode.cpp:36-89 | a response is accepted iff it is an acknowledgement with the declared payload of at most 479 bytes, and then every field and the payload come back |
| `Wire.Output.WriteLittleEndian` | src/udp/encode.hpp:58-64 | the loop appends the little-endian bytes |
| `Wire.Output.WriteHeader` | src/udp/encode.cpp:77-112 | appends the 32 bytes of the header |
| `Wire.Input.ReadUnsigned` | src/udp/decode.hpp:44-60 | the loop computes the number in the first bytes and consumes exactly these |
| `Wire.Input.ReadSigned` | src/udp/decode.hpp:44-60 | the same for signed types |
| `Wire.Input.DecodeResponseHeader` | src/udp/decode.cpp:36-89 | accepts exactly the good responses, gives their fields and leaves exactly the payload |
| `Positions.FrameRoundTrip` | src/udp/encode.cpp:128-136 | frames come back exactly for base, robot, tool and user 1 to 15; user 16 is rejected, master throws |
| `Positions.UserFrameAccepted` | src/udp/decode.cpp:108-118 | which user frame numbers are accepted and which of them mean that user frame |
| `Positions.PositionLayout` | src/udp/encode.cpp:128-185 | the 52 bytes field by field: word 0 is 0 for pulse and 16, 17, 18, 19 for base, robot, tool and user frames; configuration, tool and user number at bytes 4, 8 and 12; joint or coordinate i at byte 20 + 4i, coordinates times 1000 or 10000 and truncated |
| `Positions.PositionReads` | src/udp/decode.cpp:108-157 | any 52 bytes are read with the fields at the same places and with the same numbers; which are rejected |
| `Positions.TruncMeans` | src/udp/encode.cpp:175-181 | truncation drops the fraction, towards zero |
| `Positions.PulseRoundTrip` | src/udp/encode.cpp:144-161 | pulse positions come back with their tool, padded to eight joints |
| `Positions.CartesianRoundTrip` | src/udp/encode.cpp:163-185 | cartesian positions: encoded iff not master, back iff not user 16, with frame, configuration and tool |
| `Positions.CanonicalIsStable` | src/udp/decode.cpp:144-151 | each coordinate changes by less than one wire unit, and encoding again gives the same bytes |
| `Positions.PositionInjective` | src/udp/encode.cpp:139-185 | the 52 bytes determine the position up to canonical form, in all 19 frames that can be encoded |
| `Positions.UserFrameZeroIsLost` | src/udp/decode.cpp:113-115 | bytes that are accepted but not written back |
| `Positions.TrailingZerosOmitted` | src/udp/protocol.cpp:105-114 | a short reply to `ReadCurrentPosition` reads as the position whose trailing zeros were left out |
| `Positions.ShortReply` | src/udp/protocol.cpp:105-114 | more than 52 bytes are rejected, fewer are read with zeros behind them |
| `Positions.EncodePulse` | src/udp/encode.cpp:144-161 | the loops append exactly the 52 bytes |
| `Positions.EncodeCartesian` | src/udp/encode.cpp:163-185 | throws exactly for the master frame, before anything is written; otherwise appends the 52 bytes |
| `Positions.DecodePosition` | src/udp/decode.cpp:121-157 | the position in the first 52 bytes; consumes exactly these, or 20 when the frame is rejected |
| `Variables.ValueRoundTrip` | src/udp/decode.cpp:91-105 | a value of any type comes back, a position in canonical form |
| `Variables.VariablesRoundTrip` | src/udp/protocol.cpp:200-253 | up to 255 values of any type, in the count-free form too, come back in full iff every position is readable |
| `Variables.WriteSameIff` | src/udp/protocol.cpp:235-253 | two lists of any length have the same payload iff they have the same canonical values, or are an empty list and a single zero of four bytes |
| `Variables.VariablesBytes` | src/udp/protocol.cpp:202-226 | for all types but positions an accepted reply is byte for byte what would be written for the values read |
| `Variables.OtherCountRejected` | src/udp/protocol.cpp:204-215 | another count than was written is rejected, except exactly where an empty list and a single zero are the same four bytes |
| `Variables.ReplyRoundTrip` | include/yaskawa_ethernet/udp/impl/send_command.hpp:104-110 | through header and payload: values come back iff the status is 0, they are readable, and at most 118 words, 237 half words or 9 positions |
| `Variables.WriteValue` | src/udp/encode.cpp:114-142 | appends the encoded value or throws without writing |
| `Variables.ReadValue` | src/udp/decode.cpp:91-157 | reads the value and consumes exactly its size |
| `Variables.DecodeReadVars` | src/udp/protocol.cpp:201-226 | the values as specified, every byte consumed on success |
| `Variables.ReadValues` | src/udp/protocol.cpp:217-225 | the loop over the values, stopping at the first that is malformed |
| `Commands.ThrowsIff` | src/udp/encode.cpp:128-136 | a request throws exactly if it holds a position in the master frame |
| `Commands.Framing` | src/udp/encode.cpp:77-112 | 32 bytes and the payload, with the request id at its place; the declared size is right iff the payload is below 65536 bytes |
| `Commands.PayloadFits` | src/udp/protocol.cpp:229-253 | up to 255 values, and every other command, are below that |
| `Commands.WritesDiffer` | src/udp/protocol.cpp:229-253 | equal writes have the same request id, type, index and canonical values |
| `Commands.MovesDiffer` | src/udp/protocol.cpp:118-166 | equal movements have the same request id, group, speed and canonical target, in all 19 frames |
| `Commands.PositionRequestsAgree` | src/udp/protocol.cpp:82-102 | position requests are equal exactly if group and offset add up to the same 16-bit number |
| `Layouts.RequestLayout` | src/udp/protocol.cpp:43-338 | the datagram of every command: division, command, instance, attribute, service and size in the header as literals and arguments; count and values of variables in their order, with their types; names of files |
| `Layouts.MovementLayout` | src/udp/protocol.cpp:127-166 | the 26 words of a movement, each at its place: group, speed, frame number, truncated coordinates, configuration, tool, user number, and zeros elsewhere |
| `Layouts.ValuesLayout` | src/udp/protocol.cpp:246-252 | value i of a write begins i times the width of its type behind the count, and reads back there |
| `Layouts.ReplyReads` | src/udp/protocol.cpp:191-226 | which replies to `ReadVars` are accepted: status 0, exact size, the count in front unless it is 1; and value i is what the bytes at its place mean |
| `Meanings.HeaderTellsKind` | src/udp/encode.cpp:36-75 | the header alone tells the nine kinds of request apart, with the request id |
| `Meanings.MeaningBytes` | src/udp/protocol.cpp:43-338 | a command is sent in the bytes of its canonical command |
| `Meanings.SameBytesIff` | src/udp/protocol.cpp:43-338 | two commands of any kind are sent in the same bytes iff they have the same request id and the same canonical command |
| `Commands.EncodeMoveL` | src/udp/protocol.cpp:127-166 | appends header and 26 words, or throws; the earlier buffer stays |
| `Commands.EncodeReadVars` | src/udp/protocol.cpp:182-190 | both forms of the request |
| `Commands.EncodeWriteVars` | src/udp/protocol.cpp:236-253 | both forms of the request, or throws; the earlier buffer stays |
| `Commands.WriteValues` | src/udp/protocol.cpp:251 | the loop appends all values, or throws at the first that cannot be encoded |
| `Commands.Encode` | src/udp/protocol.cpp:43-338 | every command: the request is appended to the earlier buffer, or throws |
| `FileList.NamesRoundTrip` | src/udp/protocol.cpp:295-309 | a list of names comes back iff no name contains CR LF |
| `FileList.LinesArePrefix` | src/udp/protocol.cpp:295-309 | for any data the names with their line ends are its beginning, and the rest has no line end |
| `FileList.NothingDropped` | src/udp/protocol.cpp:295-309 | they are all of the data exactly if it is empty or ends with a line end |
| `FileList.ListEndToEnd` | src/udp/read_file.hpp:127-141 | names sent as a file in blocks are the result of the listing |
| `FileList.AsWritten` | src/udp/protocol.cpp:299-307 | the loop of the source: it ends only on at most one byte, and data beginning with a line end makes it use an inverted range in its second round |
| `FileList.Repaired` | src/udp/protocol.cpp:299-307 | with `++finger` it ends after size - 1 rounds with the lines of the data |
| `FileList.DecodeFileList` | src/udp/protocol.cpp:295-309 | the loop with `++finger` returns the lines, or malformed for exactly one byte |
| `Connect.NextKeeps` | src/connect.hpp:72-124 | every atomic action of every handler keeps: the flag is set iff one handler has called back or is about to |
| `Connect.AtMostOnce` | src/connect.hpp:72-124 | in every interleaving at most one callback, and the run ends |
| `Connect.ExactlyOnce` | src/connect.hpp:72-124 | a complete run has exactly one callback; the socket is connected iff it reported success; a timeout is reported only after everything was cancelled |
| `Connect.TimeoutWins` | src/connect.hpp:101-124 | once the timer has taken the flag the outcome is its own and the socket ends up closed, however the connect ends |
| `Connect.ConnectWins` | src/connect.hpp:101-114 | once the handler of the connect has taken the flag the outcome is the code of the connect, and the socket is connected exactly if that is success |
| `Connect.ResolveWins` | src/connect.hpp:89-99 | once the handler of a failed resolve has taken the flag its error is reported and no connect is begun |
| `Connect.CodesHaveCauses` | src/connect.hpp:88-124 | over the steps of any run: success comes only from a connect that succeeded, an error only from a resolve, connect or wait that ended with it, a timeout only from a wait that ran out |
| `ConnectObjects.HandlerKeeps` | src/connect.hpp:88-124 | handlers run as a whole keep the invariant |
| `ConnectObjects.ConnectionAttempt.Begin` | src/connect.hpp:71-82 | resolve is started, and the timer if there is a timeout |
| `ConnectObjects.ConnectionAttempt.OnResolve` | src/connect.hpp:88-99 | the handler is its atomic steps one after the other |
| `ConnectObjects.ConnectionAttempt.OnConnect` | src/connect.hpp:101-114 | the same; a connect after a timeout closes the socket without a callback |
| `ConnectObjects.ConnectionAttempt.OnConnectTimeout` | src/connect.hpp:116-124 | the same; everything is cancelled before the callback |

## Left out

- Sockets, resolvers, timers and threads of asio: they are steps of the environment.
- Actions of the user inside a callback: they are modelled as separate later steps.
- A session that is only partly started because an id is taken: the classes say what is left behind, the engine excludes it.
- An execution that calls `resolve` twice, and commands that are lost on the way to the robot: excluded from the RPC machine.
- Users that keep their pointer to a session: it is released when the posted handler runs.
- Pre-commands of a service: they are one more `sendCommands` inside the execution.
- RPC servers with more than 254 services: `Rpc.CountCovers` says that they read out of range.
- `on_error`, `on_progress` and the text of errors.
- `ReadStatus` decoding and the decoders of empty replies: finite bit and size tests.
- Cancelling a file session: the source has no entry point for it.
- IEEE rounding, Eigen and YAML conversion, stream output, command-line tools and the file manager.
- SessionObjects.Client.OnReceive: says nothing about sessions other than the one that is called, because the separation of several sessions on one heap is not modelled; the engine covers it on values.
- Positions.CanonicalIsStable: over exact reals, because rounding of `double` is not modelled.
- Positions.DecodePosition: needs 52 bytes, because the source reads without checking and its callers check the size.
- FileObjects.WriteFileSession.WriteNextBlock: needs that not more than the file was sent, because the source does not check it; `FileTransfer.RemainingIff` says when its difference wraps around.
- FileList.DecodeFileList: is the repaired loop, because the loop of the source does not end; that one is `FileList.Rounds` with 0.
