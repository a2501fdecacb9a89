# Verified model of the gateway, the agent and the host import

This project models the stateful core of the repository in Dafny and proves what
its protocols, buffers and state machines keep. `dafny verify dfyconfig.toml`
checks all of it.

| files | what they model |
|---|---|
| `Common`, `Protocol` | small general definitions; the frames and limits shared by gateway and agent |
| `AgentFiles`, `FileTransport`, `Download`, `Upload` | file streams under a byte-credit window: `FileService` on the agent, `AgentReadable` / `AgentWritable` on the gateway, and the two joined by a queue in each direction |
| `Rings`, `Terminals`, `TerminalService`, `TerminalOutput` | terminals that survive a dropped browser: backlog ring, table with grace timers, the code itself, and what happens to every byte of output |
| `AgentChannels`, `AgentOutput`, `TwoHop` | terminals that survive a dropped tunnel, what happens to every byte a pty writes and to every pty, and both hops joined |
| `Registry` | `AgentDevice`: channel-id allocator, pending opens, requests, streams, terminals |
| `FileSystem`, `CopyTree`, `SourceTree`, `Overlay`, `Paste`, `LinkedTarget`, `CopyGuard`, `RemoveTree` | recursive copy and recursive remove on a filesystem with symbolic links |
| `Csv`, `Guacamole` | CSV export and import (section 2 of RFC 4180), remote-desktop instruction codec |
| `InsertionMap`, `LoginThrottle`, `DesktopAuth` | insertion-ordered maps with caps, login back-off, browser sign-in of a desktop app |

Code that works by changing state is modelled as classes whose methods are proved
against specification functions (`ensures View() == Step(old(View()), ...)`); the
properties are then lemmas about those functions, over every run.

## How the systems are read

* Two parties run as a step system: each end's state, one first-in first-out queue
  per direction, and events in any order. Disk errors, cancelled consumers, lost
  tunnels and timers firing are events too, so a result about "every run" covers
  them; results that need the connection up say so.
* A timer is an identity that is pending, cleared or fired. Passing bytes to
  `send` counts as handing them over, because `send` is silent on a closed socket.
* The callback of `stream.end` (apps/agent/src/files.ts:338) is run only after a
  successful flush, although it ignores its error argument.
* Chunks given to an upload are at most `MAX_DATA_FRAME_BYTES`. No frame arrives on an agent socket that was already replaced. The
  gateway process does not restart.
* A path that passes through more than 40 nested links leads nowhere. Permissions
  are not modelled on the target; on the source, any path may fail to be read.

## Where the code does not do what is expected of it

Each of these is proved, with the exact condition or a concrete run.

1. The agent's socket has `maxPayload: MAX_CONTROL_FRAME_BYTES` (256 KiB), smaller
   than `MAX_DATA_FRAME_BYTES` (1 MiB). An upload chunk over 262140 bytes costs the
   agent its tunnel, and saving a text file sends up to 1 MiB as one chunk
   (`Upload.SucceedsIffChunksFit`, `Upload.OneLargeChunkNeverArrives`).
2. `detachAll` arms a new kill timer without clearing the old one. After a
   reconnect attempt that fails, the next successful one is followed by the
   terminal being killed (`AgentChannels.SecondDetachDooms`, `FailedReconnectKills`).
3. `attach` on a device that still has a socket leaves requests, opens and streams
   waiting, and the old socket's close does not fail them either; a stream has no
   timeout that would (`Registry.TakeoverStrandsCallers`, `TakeoverHappens`,
   `StreamLivesUntil`).
4. The agent keeps a download's file open for good exactly when it opened it for a
   reader that was already gone (cancelled before `stat` answered, timed out on the
   open request, or lost with the tunnel during `stat`) and the file is at least the
   1 MiB window (`Download.DownloadLeaksIff`, `Download.CancelLeakHappens`).
5. `AgentWritable` has no `_destroy`: an upload whose source breaks off before its end
   was asked for stays open at both ends; so does one whose open request timed out, on
   the agent (`Upload.UploadLeaksIff`, `Upload.UploadLeakHappens`).
6. The exit closure of a terminal deletes by session id. If the session was
   registered again, the successor's entry goes undisposed, and only then
   (`Terminals.ExitKeepsInvIff`, `Terminals.SupersededHappens`).
7. docs/agent.md:400 says that severing the tunnel loses nothing. It does lose what is
   in flight, and a full ring drops output; `TwoHop.LosesNothingIff` says exactly when,
   `TwoHop.ByteIsLost` gives a run, and `TwoHop.NothingIsLost` when the promise holds.
8. `copy_into_itself` does not refuse a place below a source whose text ends in a
   slash, the root in particular, unless its name begins with a backslash
   (`CopyGuard.SlashedSourceIsNeverRefused`). For the rest it refuses the source and
   what is below it, and also siblings such as `a\b` next to `a`
   (`CopyGuard.GuardIsExact`).
9. With links below the destination a copy can write outside it, whether or not it
   then succeeds (`LinkedTarget.OutsideIsUntouchedIff`, `LinkedTarget.CopyEscapes`).
10. Removing a path that ends in a slash after a link to a directory empties that
    directory and then fails (`RemoveTree.RemovePath`, `RemoveTree.LinkLeadsOut`). The
    SFTP transport keeps such a slash; the others strip it.
11. `parseInstruction` loops for ever exactly when it comes back to a place it has been
    at (`Guacamole.NeverEndsIff`); of the texts "-n." it reads all but six for ever
    (`Guacamole.NegativeNeverEndsIff`).
12. Login failures recorded without a lock check in between are all counted; the
    bound of nine breaks with the tenth in a window, which always comes while a lock is
    left (`LoginThrottle.RecordingIsSafeIff`, `LoginThrottle.UncheckedFailuresAddUp`).
13. `reserve` looks at the table before the file is opened, so the cap of 64 streams
    is not held while opens overlap: with `k` of them at a time up to 63 + k streams
    are open, and no more (`AgentFiles.OverlapBoundsStreams`,
    `AgentFiles.OverlapReachesBound`).
14. `ExpiringMap.set` makes room before it looks whether the key is there: in a full
    store a mere poll costs the oldest request its place (`DesktopAuth.StoringKeepsIff`,
    `DesktopAuth.PollEvictsOldest`).

## Model

| member | source | states |
|---|---|---|
| AgentFiles.DisciplineIsKept | apps/agent/src/files.ts:293-323 | writing, draining, flushing and ending keep "bytes not yet credited only while the one drain handler is registered", so one handler is enough |
| AgentFiles.OverlapBoundsStreams | apps/agent/src/files.ts:227-243 | in every run in which at most k opens overlap, at most 63 + k streams are ever open: 64 with opens one at a time |
| AgentFiles.OverlapReachesBound | apps/agent/src/files.ts:227-243 | from any 63 open streams a run of k overlapping opens ends with 63 + k |
| AgentFiles.FileService.OpenRead | apps/agent/src/files.ts:232-243 | after `stat`: a missing or directory path is refused and registers nothing; a file gets a read stream with one full window of credit |
| AgentFiles.FileService.OpenWrite | apps/agent/src/files.ts:261-279 | registers a write stream only once the file is open, with nothing owed; a failed open registers nothing |
| AgentFiles.FileService.OnData | apps/agent/src/files.ts:244-250 | sends exactly the next bytes of the file on its own channel, charges them to the credit and pauses when it is used up; no other stream changes |
| AgentFiles.FileService.OnEnd | apps/agent/src/files.ts:251-254 | a read stream leaves the table and says its end only when all of the file was read and sent |
| AgentFiles.FileService.OnFinished | apps/agent/src/files.ts:338-343 | a write stream is answered only when it was asked to end and everything it took is on disk |
| AgentFiles.FileService.OnError | apps/agent/src/files.ts:255-258 | the stream leaves the table, its farewell is an error on its own channel, no other stream changes |
| AgentFiles.FileService.Write | apps/agent/src/files.ts:293-323 | the payload reaches the sink in order and its bytes are credited at once or at the drain, never twice |
| AgentFiles.FileService.OnDrain | apps/agent/src/files.ts:319-322 | credits everything accumulated, once |
| AgentFiles.FileService.EndStream | apps/agent/src/files.ts:326-344 | a download is abandoned without a frame; an upload is only marked as ending, and nothing is sent yet |
| AgentFiles.FileService.AddCredit | apps/agent/src/files.ts:347-353 | tops up a read stream and resumes it when its credit is positive; ignores anything else |
| AgentFiles.FileService.Abort | apps/agent/src/files.ts:356-361 | removes that stream alone, without a frame |
| AgentFiles.FileService.AbortAll | apps/agent/src/files.ts:364-366 | no stream survives and no frame is sent |
| FileTransport.AgentReadable.constructor | apps/gateway/src/agents/file-transport.ts:73-98 | a reader starts with its channel, nothing owed, and the open request sent |
| FileTransport.AgentReadable.OnData | apps/gateway/src/agents/file-transport.ts:80-83 | the chunk is pushed and owed |
| FileTransport.AgentReadable.OnEnd | apps/gateway/src/agents/file-transport.ts:84-88 | the channel is released and the consumer sees the end, not an error (`Download.ArrivesIff` holds of this step) |
| FileTransport.AgentReadable.OnError | apps/gateway/src/agents/file-transport.ts:89-93 | the channel is released and the consumer sees an error |
| FileTransport.AgentReadable.Read | apps/gateway/src/agents/file-transport.ts:116-120 | everything owed is credited in one frame, nothing once released |
| FileTransport.AgentReadable.Destroy | apps/gateway/src/agents/file-transport.ts:122-130 | an unfinished reader tells the agent once and releases; a finished one sends nothing |
| FileTransport.AgentWritable.constructor | apps/gateway/src/agents/file-transport.ts:148-190 | a writer starts with a full window and its open request sent |
| FileTransport.AgentWritable.Continue | apps/gateway/src/agents/file-transport.ts:198-240 | after each await: fail, park without credit, send the chunk and charge it, send the end once, or succeed without a failure |
| FileTransport.AgentWritable.OnAnswer | apps/gateway/src/agents/file-transport.ts:179-186 | acceptance opens the gate, refusal fails and releases |
| FileTransport.AgentWritable.OnEnd | apps/gateway/src/agents/file-transport.ts:156-159 | releases and wakes the final flush only |
| FileTransport.AgentWritable.OnError | apps/gateway/src/agents/file-transport.ts:160-168 | records the failure and wakes whichever is waiting |
| FileTransport.AgentWritable.OnCredit | apps/gateway/src/agents/file-transport.ts:169-176 | adds the credit and wakes a parked chunk only when the credit is positive |
| Download.StepKeepsInv | apps/agent/src/files.ts:232-259 | every event of both ends keeps the download invariant: conservation, delivery, order of the last frame, credit in the schema |
| Download.RunKeepsInv | apps/agent/src/tunnel.ts:253-335 | the invariant holds after every run |
| Download.Reached | apps/gateway/src/agents/file-transport.ts:68-131 | every reachable state satisfies the download invariant, from the first frame on |
| Download.BufferingIsBounded | packages/agent-protocol/src/index.ts:162-184 | in every run agent credit, data in flight, owed bytes and credit in flight add up to the window; unacknowledged bytes stay below the window plus a chunk; what is buffered and on the wire stays within that and the high-water mark, whatever the file; every credit frame fits the schema |
| Download.DownloadIsIntact | apps/gateway/src/agents/file-transport.ts:80-93 | what the consumer was given is a prefix of the file at all times and the whole file when the stream ends without error, in runs with errors and lost tunnels too |
| Download.StepDecreases | apps/agent/src/files.ts:244-254 | every step makes the measure of a download smaller |
| Download.RunsAreFinite | apps/agent/src/files.ts:244-254 | no run is longer than 8 times the file plus 14 steps |
| Download.QuiescentIsFinal | apps/gateway/src/agents/file-transport.ts:116-120 | with the connection up, a state without a possible step has handed the whole file to the consumer, or has ended in an error: no deadlock |
| Download.ArrivesIff | apps/gateway/src/agents/file-transport.ts:80-130 | over every run that has come to rest with the connection up, the whole file has arrived, was consumed, and its stream has ended without an error, if and only if nobody cancelled, the file could be opened and read, and the open request did not time out |
| Download.RunsToEnd | apps/gateway/src/agents/file-transport.ts:80-130 | from every reachable state some run of internal events leads to a quiet state |
| Download.EveryFileArrives | apps/gateway/src/agents/file-transport.ts:80-130 | for every file some run of internal events ends with it arrived |
| Download.DownloadLeaksIff | apps/gateway/src/agents/file-transport.ts:99-130 | over every run that has come to rest, the agent still holds the file open if and only if the disk did not fail, the file fills the window, and the open was overtaken by a cancellation or by its timeout or, with the connection down, by the loss of the tunnel |
| Download.CancelLeakHappens | apps/agent/src/files.ts:326-334 | for every file of at least the window, a run to that state |
| Upload.StepKeepsInv | apps/gateway/src/agents/file-transport.ts:140-241 | every event of both ends keeps the upload invariant |
| Upload.RunKeepsInv | apps/agent/src/tunnel.ts:452-464 | the invariant holds after every run |
| Upload.CreditIsConserved | apps/gateway/src/agents/file-transport.ts:169-217 | writer credit, data in flight, uncredited bytes and credit in flight add up to the window; every credit frame fits the schema |
| Upload.NoLostWakeup | apps/agent/src/files.ts:297-323 | a parked writer has no credit, and at least a whole window is still to come back to it: as data not yet handled, as bytes whose drain handler is registered, or as credit frames; or else the farewell is on its way |
| Upload.FailureIsTold | apps/gateway/src/agents/file-transport.ts:160-168 | in every run a failed stream keeps nobody waiting: whatever was parked or flushing runs on into the failure, and an accepted stream with nothing to write fails at once |
| Upload.UploadIsIntact | apps/gateway/src/agents/file-transport.ts:223-240 | `_final` succeeds only when the agent's file is the concatenation of all chunks written, in order |
| Upload.StepDecreases | apps/agent/src/files.ts:293-344 | every step makes the measure of an upload smaller |
| Upload.RunsAreFinite | apps/agent/src/files.ts:293-344 | no run is longer than twice the bytes plus 6 per chunk plus 15 steps |
| Upload.QuiescentIsFinal | apps/gateway/src/agents/file-transport.ts:198-240 | with the connection up, nothing left to do means the writer finished, and well unless something failed |
| Upload.RunsToEnd | apps/gateway/src/agents/file-transport.ts:198-240 | from every reachable state some run of internal events leads to a quiet state |
| Upload.SucceedsIffChunksFit | apps/agent/src/tunnel.ts:151-154 | an upload can succeed if and only if every chunk with its header fits `maxPayload` |
| Upload.OneLargeChunkNeverArrives | apps/gateway/src/protocols/sftp.ts:218-230 | a text file between 256 KiB and 1 MiB, sent as one chunk, never arrives |
| Upload.UploadLeaksIff | apps/gateway/src/agents/file-transport.ts:140-241 | the source may break off anywhere: once nothing more happens, the agent still holds the file open if and only if the disk did not fail and the end was never asked for, or the open request had timed out, or, with the connection down, the tunnel was lost during the open |
| Upload.UploadLeakHappens | apps/gateway/src/agents/file-transport.ts:140-241 | a run to that state, whatever there was to upload |
| Rings.WindowIsUnique | apps/gateway/src/terminals.ts:85-93 | at most one chunk suffix is the longest within the cap, or just the newest chunk |
| Rings.BacklogIsWindow | apps/gateway/src/terminals.ts:85-93 | after any run of detached writes the backlog is that one window of them |
| Rings.ReplayIsSuffix | apps/agent/src/channels.ts:151-163 | after any run of detached writes the replay is a byte suffix of them within 256 KiB |
| Rings.ReplayIsWindow | apps/agent/src/channels.ts:151-163 | and it is the longest that whole chunks (cut to the cap) allow |
| Terminals.StepKeepsInv | apps/gateway/src/terminals.ts:114-276 | every event keeps the table: attached with no timer, no backlog and not exited, or detached with exactly one timer; no entry leaves undisposed, nor before its shell has exited or its stream was ended, once |
| Terminals.EmptyInv | apps/gateway/src/terminals.ts:137-159 | the empty table, of any type of output, satisfies the invariant |
| Terminals.ExitKeepsInvIff | apps/gateway/src/terminals.ts:169-180 | an exit keeps the table if and only if its registration was not superseded |
| Terminals.SupersededHappens | apps/gateway/src/terminals.ts:169-180 | registering a session twice and then the exit of the first shell leaves the second running without an entry |
| Terminals.RunKeepsInv | apps/gateway/src/terminals.ts:114-276 | the table invariant over every run without a superseded exit |
| Terminals.RegisteredOnceIsTidy | apps/gateway/src/terminals.ts:137-145 | with each session registered once no exit is superseded |
| Terminals.LateCloseChangesNothing | apps/gateway/src/terminals.ts:251-253 | the late close of a replaced socket changes nothing |
| Terminals.DetachStartsCountdown | apps/gateway/src/terminals.ts:255-275 | the exited branch of a detach is unreachable and every detach starts one countdown |
| TerminalService.LiveTerminal.Remember | apps/gateway/src/terminals.ts:85-93 | the shift loop leaves exactly the evicted backlog, its byte count and the truncation flag |
| TerminalService.Service.EndTerminal | apps/gateway/src/terminals.ts:114-126 | the entry leaves, its timer is cleared, its socket told, its stream ended if alive, and it is disposed |
| TerminalService.Service.RegisterTerminal | apps/gateway/src/terminals.ts:137-159 | a stale entry is ended first; the new one is attached from the first byte |
| TerminalService.Service.OnData | apps/gateway/src/terminals.ts:161-167 | output goes to the socket if there is one and to the backlog otherwise |
| TerminalService.Service.OnExit | apps/gateway/src/terminals.ts:169-186 | a watched shell's exit is told and disposes; an unwatched one keeps its entry for its last words |
| TerminalService.Service.AttachSocket | apps/gateway/src/terminals.ts:208-242 | the newcomer wins, the loser is told to stop, the backlog is given once, an exited shell is disposed |
| TerminalService.Service.ResumeTerminal | apps/gateway/src/routes.ts:418-442 | the notice that fits, then the backlog in order, then the exit if there was one |
| TerminalService.Service.Reattach | apps/gateway/src/routes.ts:418-442 | attaching and replaying together hand over exactly what was held |
| TerminalService.Service.DetachSocket | apps/gateway/src/terminals.ts:251-276 | ignores a socket not on record, otherwise leaves exactly one new countdown |
| TerminalService.Service.OnGrace | apps/gateway/src/terminals.ts:268-273 | the terminal whose timer fires leaves, ended and disposed |
| TerminalOutput.LiveConserves | apps/gateway/src/terminals.ts:161-242 | each happening keeps the emitted chunks split, in order, into handed over, dropped and held, and `truncated` true exactly when something was dropped since the last attach |
| TerminalOutput.OutputIsConserved | apps/gateway/src/terminals.ts:161-242 | the same over the whole life of a terminal, for any sequence of sockets |
| TerminalOutput.NoticeIsTrue | apps/gateway/src/routes.ts:418-425 | a browser that reconnects is told that output was dropped, that there is some it missed, or that there is none, each if and only if it is so since the last attach |
| TerminalOutput.LosersAreTold | apps/gateway/src/terminals.ts:114-242 | a browser is told of the exit and then closed, once and with nothing after it, if and only if it loses its terminal |
| TerminalOutput.EveryTerminalConserves | apps/gateway/src/terminals.ts:137-276 | in any run of the whole table every terminal is what its own life makes it, so its output is conserved |
| AgentChannels.OtherEventsTrack | apps/agent/src/channels.ts:75-181 | every event but a detach keeps "each waiting channel has its own one timer, each attached one none" |
| AgentChannels.DetachAllTracksIff | apps/agent/src/channels.ts:187-198 | a detach keeps it if and only if no channel was already waiting |
| AgentChannels.SecondDetachDooms | apps/agent/src/channels.ts:187-198 | a channel resumed after a detach has a kill pending if and only if it was already waiting before that detach |
| AgentChannels.DoomedIsKilled | apps/agent/src/channels.ts:190-194 | when that timer fires, the attached pty is killed and its id forgotten |
| AgentChannels.AttachedIsSafe | apps/agent/src/channels.ts:132-148 | in every run without two detaches in a row no attached terminal has a kill pending, and every waiting one has exactly its own |
| AgentChannels.FailedReconnectKills | apps/agent/src/tunnel.ts:202-214 | a concrete run: open, tunnel lost, one failed reconnect, resumed; then the first timer fires and the attached pty is killed |
| AgentOutput.OutputIsConserved | apps/agent/src/channels.ts:113-163 | after any run, the output frames of a channel since its pty was spawned are what the pty wrote, in order, but for bytes lost for want of room and the tail held in the replay; attached, nothing is held |
| AgentOutput.LosesOnlyWhenFull | apps/agent/src/channels.ts:151-163 | a write loses held bytes if and only if they and it together exceed the cap |
| AgentOutput.ResumeSendsHeld | apps/agent/src/channels.ts:132-148 | a resume sends exactly what was held, on its own channel, and loses nothing |
| AgentOutput.ExitComesLast | apps/agent/src/channels.ts:121-126 | an exit is reported only while attached, and after all the output |
| AgentOutput.PtysAreAccounted | apps/agent/src/channels.ts:75-208 | in every run without two detaches in a row every pty spawned is running, was killed or came to its own end, exactly one of these; never more than 32 run |
| AgentOutput.BegunIsAccounted | apps/agent/src/channels.ts:50-62 | both hold of an agent that has just started |
| AgentChannels.ChannelManager.Open | apps/agent/src/channels.ts:75-130 | a held channel is resumed, an attached one refused, a 33rd refused, a new one starts attached and empty |
| AgentChannels.ChannelManager.Resume | apps/agent/src/channels.ts:132-148 | its timer is cleared and its replay sent once, in order (what that means for the bytes is `AgentOutput.ResumeSendsHeld`) |
| AgentChannels.ChannelManager.BufferOutput | apps/agent/src/channels.ts:151-163 | the loop leaves exactly the evicted replay with its byte count |
| AgentChannels.ChannelManager.OnData | apps/agent/src/channels.ts:113-119 | attached output is sent, detached output buffered |
| AgentChannels.ChannelManager.OnExit | apps/agent/src/channels.ts:121-126 | the channel is forgotten and its exit reported only while attached |
| AgentChannels.ChannelManager.CloseChannel | apps/agent/src/channels.ts:175-181 | a known channel is forgotten, its timer cleared, its pty killed |
| AgentChannels.ChannelManager.DetachAll | apps/agent/src/channels.ts:187-198 | every channel waits with a new timer, the old handles overwritten and still pending |
| AgentChannels.ChannelManager.OnGrace | apps/agent/src/channels.ts:190-194 | the channel of the timer is forgotten and its pty killed, whoever is attached |
| TwoHop.StepKeepsInv | apps/gateway/src/agents/registry.ts:321-337 | every event of either hop keeps the line from pty to browsers an in-order selection of what the pty wrote |
| TwoHop.DeliveryIsInOrder | apps/agent/src/channels.ts:113-163 | the bytes handed to browsers are an in-order subsequence of what the pty wrote, none twice, under any drops, resumes, takeovers and reattaches |
| TwoHop.LosesNothingIff | apps/agent/src/channels.ts:187-198 | a step loses no byte if and only if it is not a tunnel cut with frames in flight, nor a ring overflow |
| TwoHop.LosslessRunKeepsAll | apps/gateway/src/terminals.ts:161-242 | over a run of such steps handed over, held and travelling bytes are the whole output |
| TwoHop.NothingIsLost | apps/agent/src/channels.ts:113-163 | a reconnect within the window with nothing in flight and no full ring hands over or holds exactly what was written |
| TwoHop.ByteIsLost | apps/agent/src/channels.ts:187-198 | a run of two steps after which a byte is neither handed over nor on its way |
| Registry.AllocateFinds | apps/gateway/src/agents/registry.ts:565-575 | an allocated id is in 1..2^32-1 and held by nobody; the search fails if and only if every id it may probe is taken |
| Registry.AllocateTakesFirst | apps/gateway/src/agents/registry.ts:565-575 | the id found is the first free one from the start on, and the next search begins right after it |
| Registry.NotTwiceInARow | apps/gateway/src/agents/registry.ts:565-575 | no id is issued twice in a row, whatever was freed in between |
| Registry.ProbesAreDistinct | apps/gateway/src/agents/registry.ts:565-575 | 65535 probes with wrap-around never meet an id twice |
| Registry.AllocationSucceeds | apps/gateway/src/agents/registry.ts:565-575 | with fewer than 65535 live ids the search succeeds |
| Registry.NothingIsForgotten | apps/gateway/src/agents/registry.ts:251-278 | issued = settled + outstanding, as collections and in number |
| Registry.NewDeviceInv | apps/gateway/src/agents/registry.ts:180-199 | a new device satisfies the invariant |
| Registry.StepKeepsInv | apps/gateway/src/agents/registry.ts:229-599 | every event keeps: ids disjoint and in range, each caller waiting once, a timeout pending for exactly the opens and requests waited on, each call settled at most once |
| Registry.EveryRunSettlesOnce | apps/gateway/src/agents/registry.ts:367-554 | the same after every run |
| Registry.CallersAreToldRight | apps/gateway/src/agents/registry.ts:251-554 | in every run a caller is rejected if and only if a channel error, a failing answer, a stream error, a timeout or the close of the current socket ended its wait, and served if and only if what it asked for came; never both, never twice |
| Registry.AnswerReachesItsCaller | apps/gateway/src/agents/registry.ts:416-473 | the answer to the id that `rpc` returned is told to that caller, in the sense it has, and to nobody else |
| Registry.OpeningReachesItsCaller | apps/gateway/src/agents/registry.ts:376-404 | so is the answer to an opening, and output of the new terminal is routed to it from the start |
| Registry.FramesReachTheirSink | apps/gateway/src/agents/registry.ts:328-335 | the frames of a new stream go to its own sink, and so does its end or error |
| Registry.TerminalLivesUntil | apps/gateway/src/agents/registry.ts:376-414 | a terminal stays routed until its exit, its error, its failed opening, its dismissal or the end of the grace period; `opened` ends nothing |
| Registry.OnlineIff | apps/gateway/src/agents/registry.ts:201-256 | a device goes online with its hello and offline with its current socket; a socket that takes over keeps it online |
| Registry.TerminalsAreOnTheClock | apps/gateway/src/agents/registry.ts:280-302 | in every run terminals of an offline device have the end of their grace period pending |
| Registry.FramesHaveOneOwner | apps/gateway/src/agents/registry.ts:328-335 | in every run a binary frame has at most one owner, so the order of the two look-ups does not matter |
| Registry.OpenShellIsNeverAResume | apps/gateway/src/agents/registry.ts:522-545 | with fewer than 65535 live ids a new terminal gets an id that no terminal, open or stream holds |
| Registry.DetachFailsAllIffCurrent | apps/gateway/src/agents/registry.ts:251-278 | the close of the current socket fails every waiting caller and clears every timeout; any other close changes nothing |
| Registry.StreamLivesUntil | apps/gateway/src/agents/registry.ts:478-486 | a file stream stays registered until its release, its end or error, or the close of the current socket: nothing else ends it |
| Registry.TakeoverStrandsCallers | apps/gateway/src/agents/registry.ts:229-253 | after a takeover and the old socket's close every caller still waits |
| Registry.TakeoverHappens | apps/gateway/src/agents/registry.ts:229-253 | a run from a new device after which a file stream waits, with no grace period and nothing settled |
| Registry.AgentDevice.AllocateChannelId | apps/gateway/src/agents/registry.ts:565-575 | the probe loop returns the first free id and moves the start past it |
| Registry.AgentDevice.Attach | apps/gateway/src/agents/registry.ts:229-249 | the newcomer is the socket, the grace period ends, nothing else changes |
| Registry.AgentDevice.Detach | apps/gateway/src/agents/registry.ts:251-302 | loops over opens, requests and streams leave three empty tables, every caller failed once, terminals kept for the grace period |
| Registry.AgentDevice.OnOpened | apps/gateway/src/agents/registry.ts:367-388 | resolves the waiting open once, clears its timeout and keeps its channel (`Registry.CallersAreToldRight` and `TerminalLivesUntil` hold of this step) |
| Registry.AgentDevice.OnChannelError | apps/gateway/src/agents/registry.ts:390-404 | rejects the waiting open once and forgets the terminal |
| Registry.AgentDevice.OnRpcAnswer | apps/gateway/src/agents/registry.ts:416-432 | settles the request once and clears its timeout; an unknown id changes nothing |
| Registry.AgentDevice.ReleaseStream | apps/gateway/src/agents/registry.ts:484-486 | the stream and only it leaves |
| Registry.AgentDevice.OnStreamError | apps/gateway/src/agents/registry.ts:443-448 | the stream leaves and its caller is failed once |
| Registry.AgentDevice.Rpc | apps/gateway/src/agents/registry.ts:459-473 | offline nothing is issued; online a fresh id waits with a timeout |
| Registry.AgentDevice.OpenStream | apps/gateway/src/agents/registry.ts:478-482 | a free id is reserved for the sink |
| Registry.AgentDevice.OpenShell | apps/gateway/src/agents/registry.ts:522-545 | offline, an unknown shell or no free id issue nothing; otherwise terminal and open are registered together under the id returned |
| Registry.AgentDevice.OnOpenTimeout | apps/gateway/src/agents/registry.ts:537-553 | rejects the open once and forgets its channel |
| Registry.AgentDevice.OnRpcTimeout | apps/gateway/src/agents/registry.ts:464-468 | rejects the request once |
| FileSystem.LinksDecideCanonical | apps/gateway/src/protocols/sftp.ts:288-336 | where a path leads depends on links alone, which no copy touches |
| FileSystem.CanonicalBelow | apps/gateway/src/protocols/sftp.ts:318-324 | below a place without links joined paths lead where they say |
| CopyTree.CopyInto | apps/gateway/src/protocols/sftp.ts:305-336 | the recursive copy with its loops and counters does exactly the planned operations up to the first error |
| CopyTree.EnsureDirectory | apps/gateway/src/protocols/sftp.ts:288-293 | an existing directory is kept, anything else there refused, nothing there created |
| CopyTree.CopyPath | apps/gateway/src/protocols/sftp.ts:351-374 | the destination, the target and the totals are those of the specified paste |
| Paste.FileGoesInside | apps/gateway/src/protocols/sftp.ts:338-363 | a readable file pasted onto an existing directory ends up in it, under its own name, with its bytes; that goes through if and only if no directory of that name is there |
| Paste.FileGoesThere | apps/gateway/src/protocols/sftp.ts:338-363 | onto anything else it goes exactly where it was asked to |
| Paste.FolderMerges | apps/gateway/src/protocols/sftp.ts:338-363 | a folder pasted onto a directory lays its entries directly in it, and touches nothing else |
| Paste.FolderTwiceIsOnce | apps/gateway/src/protocols/sftp.ts:338-363 | pasting it a second time succeeds and changes nothing |
| Paste.FolderIsRefused | apps/gateway/src/protocols/sftp.ts:288-293 | a folder pasted onto a file fails as such and changes nothing |
| CopyTree.RunOnlyAdds | apps/gateway/src/protocols/sftp.ts:338-350 | however far a copy gets, nothing is deleted and only bytes of files change, links or not |
| SourceTree.PlanIsCleanIff | apps/gateway/src/protocols/sftp.ts:314-326 | the copy gets through the source if and only if all of it can be read and it is at most 64 deep |
| SourceTree.PlanIsTheTree | apps/gateway/src/protocols/sftp.ts:316-336 | what a copy does is exactly the link-resolved source tree: a directory for each folder, each file with its bytes, nothing for other entries |
| SourceTree.PlanIsApart | apps/gateway/src/protocols/sftp.ts:318-324 | each entry once |
| SourceTree.PlanMakesParents | apps/gateway/src/protocols/sftp.ts:316-324 | each directory before what goes into it |
| Overlay.RunTouchesOnly | apps/gateway/src/protocols/sftp.ts:305-336 | a copy touches only the places its paths lead to, links followed, whether or not it succeeds |
| Overlay.RunLands | apps/gateway/src/protocols/sftp.ts:305-336 | after a success every directory exists and every file not written again later holds its bytes |
| Overlay.CopyIsOverlay | apps/gateway/src/protocols/sftp.ts:338-374 | a successful copy is the old target with the source tree merged in: same-named files replaced, everything else below and outside the destination as before |
| Overlay.CopySucceedsIff | apps/gateway/src/protocols/sftp.ts:288-336 | a copy succeeds if and only if the source is readable and at most 64 deep and nothing of the wrong kind is in its way |
| Overlay.EndlessSourceFails | apps/gateway/src/protocols/sftp.ts:60-68 | a loop of links, an endless chain of folders, always ends in an error |
| Overlay.CountsTheFiles | apps/gateway/src/protocols/sftp.ts:296-303 | the totals are the number of files in the source tree and the sum of their sizes, each file counted once, whatever the target |
| Overlay.BrokenFilesDoNotCount | apps/gateway/src/protocols/sftp.ts:327-336 | a file that breaks off while it is read is never counted |
| LinkedTarget.CopyIs | apps/gateway/src/protocols/sftp.ts:288-336 | for any target, with links or without: how far the copy gets and what is at every place then, told place by place from the source and the target it began with |
| LinkedTarget.OutsideIsUntouchedIff | apps/gateway/src/protocols/sftp.ts:338-350 | whether or not the copy succeeds, everything outside the destination is untouched if and only if no last operation to reach a place outside finds something to do there; two links to one place included |
| LinkedTarget.CopyEscapes | apps/gateway/src/protocols/sftp.ts:327-336 | a target in which a folder with one file, copied over a directory with a link of that name, replaces the file beside the directory |
| CopyGuard.GuardIsExact | apps/gateway/src/protocols/sftp.ts:366-369 | for a source other than the root the text comparison refuses exactly the source, what is below it, and what is at or below a sibling named like it up to a backslash |
| CopyGuard.SlashedSourceIsNeverRefused | apps/gateway/src/protocols/sftp.ts:366-369 | a source text ending in a slash is refused only for itself and for names that go on with a backslash |
| RemoveTree.RemoveTree | apps/gateway/src/protocols/sftp.ts:252-263 | succeeds if and only if the path is a directory, no link to one, and not reached through itself; then exactly that subtree is gone; on failure only things below it are, and something is if and only if the directory had entries; it ends on every finite tree |
| RemoveTree.RemoveEntry | apps/gateway/src/protocols/sftp.ts:253-260 | a directory entry is walked, anything else unlinked, and only that entry is gone |
| RemoveTree.RemovePath | apps/gateway/src/protocols/sftp.ts:265-286 | root refused, directories only recursively; a file or link is always removed, a directory if and only if it is removable, and then the node named goes with all below it and nothing else; something outside the named node goes only for a slash after a link to a directory with entries, removed recursively, and then, where the way there does not lead through that directory itself, always |
| RemoveTree.LinkLeadsOut | apps/gateway/src/protocols/sftp.ts:276-285 | a tree with a link to a directory in which that happens |
| RemoveTree.LinksAreNotWalked | apps/gateway/src/protocols/sftp.ts:255-259 | removing a link leaves every other node, what it leads to included |
| Csv.ParseCsv | apps/api/src/lib/host-import/csv.ts:10-77 | the loop computes the specified rows |
| Csv.ScanCell | apps/api/src/lib/host-export.ts:45-52 | a written cell reads back as its neutralised text, whatever it contains |
| Csv.SheetIsRead | apps/api/src/lib/host-import/csv.ts:10-77 | every sheet is read as what it holds: fields bare or in quotes, any of the three separators, either line break, with or without one at the end, with or without a byte-order mark; only rows without text are left out |
| Csv.RoundTrip | apps/api/src/lib/host-import/csv.ts:10-77 | reading an export returns the rows, neutralised, without those that hold no text |
| Csv.NoFormulaIsRead | apps/api/src/lib/host-export.ts:39-52 | no cell read back starts like a formula |
| Csv.NeutralIff | apps/api/src/lib/host-export.ts:45-52 | only a text that starts like a formula gets an apostrophe; all others are written as they are |
| Csv.ExportHosts | apps/api/src/lib/host-export.ts:88-110 | one line for the columns and one for each host |
| Csv.ExportedHostsAreRead | apps/api/src/lib/host-export.ts:88-110 | every exported host is read back, in order, with under each column name what the host has under it |
| Csv.ValuesAreTold | apps/api/src/lib/host-export.ts:88-110 | a port reads as its number, and no two types or environments alike |
| Csv.TagsComeBack | apps/api/src/lib/host-import/normalize.ts:100-114 | tags without breaks and outer white space are split again as they were written |
| Guacamole.ParseInstruction | apps/gateway/src/protocols/rdp-connections.ts:13-38 | the cursor loop followed for any number of turns, on every buffer: the elements it leaves when it ends, and that it has not ended otherwise |
| Guacamole.RoundTrip | apps/gateway/src/protocols/rdp-connections.ts:5-38 | an encoded instruction followed by any text is read as exactly its opcode and parameters |
| Guacamole.WhatIsThereIsRead | apps/gateway/src/protocols/rdp-connections.ts:17-38 | an instruction that breaks off, or goes on with what is no element, is read as the elements it has |
| Guacamole.LengthIsReadLeniently | apps/gateway/src/protocols/rdp-connections.ts:21-22 | a length is read after white space and either sign, up to the first character that is no digit |
| Guacamole.NoLengthWithoutDigit | apps/gateway/src/protocols/rdp-connections.ts:21-22 | nothing else is a length |
| Guacamole.TurnGoesBackIff | apps/gateway/src/protocols/rdp-connections.ts:21-30 | a turn leads back if and only if the length read is at most the cursor less the dot less two |
| Guacamole.ForwardEnds | apps/gateway/src/protocols/rdp-connections.ts:17-32 | a buffer whose turns all lead further along is read to an end |
| Guacamole.EndsWithoutMinus | apps/gateway/src/protocols/rdp-connections.ts:17-32 | so is every buffer without a minus sign |
| Guacamole.NeverEndsIff | apps/gateway/src/protocols/rdp-connections.ts:17-32 | the loop never ends if and only if it comes back to a place; if it ends, then within twice as many turns as there are characters, and one |
| Guacamole.NegativeNeverEndsIff | apps/gateway/src/protocols/rdp-connections.ts:21-30 | the loop never ends on "-n." if and only if n is 4 or at least 7 |
| InsertionMap.Sweep | apps/api/src/lib/store.ts:86-91 | deleting while iterating removes exactly the stale entries and keeps the order |
| InsertionMap.EvictOldest | apps/api/src/lib/login-throttle.ts:35-39 | the oldest entries go until the cap holds |
| InsertionMap.EvictOnlyTakes | apps/api/src/lib/store.ts:93-102 | eviction reaches the cap and changes no entry it keeps |
| InsertionMap.NewestAreKept | apps/api/src/lib/login-throttle.ts:35-39 | of any number of keys that came, the last ones to come are kept, as many as the cap allows |
| LoginThrottle.OneMoreIsOk | apps/api/src/lib/login-throttle.ts:56-79 | a failure recorded with no lock left keeps the count at nine or below and never shortens a lock within an entry |
| LoginThrottle.RecordingIsSafeIff | apps/api/src/lib/login-throttle.ts:56-79 | a failure recorded at any time is counted as the tenth if and only if nine lie in the window, always with a lock left; and keeps the entry as promised if and only if it is not that tenth and comes no sooner after the first failure than the locks so far add up to |
| LoginThrottle.EveryRunIsBounded | apps/api/src/lib/login-throttle.ts:46-84 | in every run no more than nine failures, no lock over 900 seconds, no more than 20000 entries |
| LoginThrottle.SweepKeepsTheRest | apps/api/src/lib/login-throttle.ts:26-39 | a sweep within the cap forgets exactly what is past its window and past its lock |
| LoginThrottle.FailureCounts | apps/api/src/lib/login-throttle.ts:56-79 | a failure is one more counted, and locks for a minute at the fifth, twice as long each time after it, and never for more than fifteen |
| LoginThrottle.FailuresAddUp | apps/api/src/lib/login-throttle.ts:56-79 | failures spread over one window add up, whatever happens in between but a success of the same account |
| LoginThrottle.SuccessForgives | apps/api/src/lib/login-throttle.ts:82-84 | a success forgets the failures and the lock of its account and of no other |
| LoginThrottle.LockIsRoundedUp | apps/api/src/lib/login-throttle.ts:46-53 | the seconds reported are the fewest that cover the lock |
| LoginThrottle.UncheckedFailuresAddUp | apps/api/src/lib/login-throttle.ts:56-79 | any number of failures recorded without the check are all counted |
| LoginThrottle.Throttle.GetLoginLock | apps/api/src/lib/login-throttle.ts:46-53 | sweeps and returns the lock left in whole seconds |
| LoginThrottle.Throttle.RecordLoginFailure | apps/api/src/lib/login-throttle.ts:56-79 | counts, locks and sweeps as specified |
| LoginThrottle.Throttle.ClearLoginFailures | apps/api/src/lib/login-throttle.ts:82-84 | forgets that account and no other |
| DesktopAuth.StepKeepsInv | apps/api/src/lib/desktop-auth.ts:154-306 | every call keeps requests in agreement with what was issued and who approved, and the caps |
| DesktopAuth.HandOverIsEarned | apps/api/src/lib/desktop-auth.ts:223-252 | a poll hands over only with the right device secret, only for the approver, within five minutes of creation although each write renews the map's time, and not twice |
| DesktopAuth.CollectedStays | apps/api/src/lib/desktop-auth.ts:213-222 | after a hand-over no poll of any later state hands the request over again |
| DesktopAuth.PollTellsTheAnswer | apps/api/src/lib/desktop-auth.ts:223-252 | in every run a poll of a live request with the right secret and polls left hands over if and only if it was approved and refuses if and only if it was denied; the wrong secret learns nothing |
| DesktopAuth.ApprovalTellsTheAnswer | apps/api/src/lib/desktop-auth.ts:263-288 | in every run an approval of a live request is told that it was answered, that its code is right, wrong, or wrong for the fifth time, each if and only if it is so |
| DesktopAuth.RequestsAreKept | apps/api/src/lib/store.ts:86-102 | a request that is due stays so until its last answer, whatever happens to it or to others, while fewer than 5000 are kept |
| DesktopAuth.StoringKeepsIff | apps/api/src/lib/store.ts:93-102 | storing a request keeps another that is due if and only if that is among the newest 4999 that are, also when the first was in the store already |
| DesktopAuth.PollEvictsOldest | apps/api/src/lib/store.ts:93-102 | so in a full store a poll evicts the oldest other request |
| DesktopAuth.StoringSweeps | apps/api/src/lib/store.ts:86-94 | storing a request forgets all others that have expired |
| DesktopAuth.ExpiredIsForgotten | apps/api/src/lib/store.ts:104-112 | one that is no longer due is forgotten by whatever asks for it next |
| DesktopAuth.ApprovalNeedsTheCode | apps/api/src/lib/desktop-auth.ts:263-288 | only the code shown approves, once, within the five minutes |
| DesktopAuth.AnswersStand | apps/api/src/lib/desktop-auth.ts:263-306 | an answer given never changes |
| DesktopAuth.LimitsHold | apps/api/src/lib/desktop-auth.ts:52-60 | no request, kept or gone, had more than 4 wrong codes answered as such or was polled more than 300 times in vain, and at most 5000 are kept |
| DesktopAuth.RequestStore.Set | apps/api/src/lib/store.ts:93-102 | sweep, make room, store with a fresh time to live |
| DesktopAuth.FreshRequestIsLive | apps/api/src/lib/desktop-auth.ts:178-211 | however full the store, a request just created is in it; for five minutes and no longer it answers exactly its own device and takes exactly the code it showed |
| DesktopAuth.CodesAreTypedLoosely | apps/api/src/lib/desktop-auth.ts:138-140 | a code is the same in either case and with or without whatever is no letter or digit |
| DesktopAuth.RequestStore.PollRequest | apps/api/src/lib/desktop-auth.ts:223-252 | the specified poll |
| DesktopAuth.RequestStore.ApproveRequest | apps/api/src/lib/desktop-auth.ts:263-288 | the specified approval |
| DesktopAuth.RequestStore.DenyRequest | apps/api/src/lib/desktop-auth.ts:296-306 | the specified refusal |

## Left out

- Sockets, ssh2, node-pty, HTTP routes, the database, Electron and child processes: they appear only as events.
- Payload encoding: chunks are bytes; decoding each one as UTF-8 is not modelled, nor is data-frame header parsing.
- A device's registration of stream sinks appears in the stream systems as the channel being open or released.
- Aliasing: stream states, channels and requests are values in maps, so a closure that still holds a removed record is modelled by the identity it carries (`Terminals`, `AgentChannels`), not by a shared object.
- Two terminal opens racing across an await on the agent, and the resume of a terminal whose open is still pending. Two `reserve` calls with one channel id, which the gateway never sends.
- Output of a pty after its channel was closed or killed.
- Copies within one filesystem: only the check that guards them (`CopyGuard`), because the source then changes while it is read.
- RemoveTree.RemoveTree: assumes nothing else changes the filesystem meanwhile and no permission is missing.
- Csv.RoundTrip: rows whose very first cell starts with a byte-order mark are excluded; the export's first cell is always a column name.
- Csv.TagsComeBack: the importer's limits on the number and length of tags, and its removal of duplicates.
- DesktopAuth.HandOverIsEarned: case folding of user codes is that of ASCII letters only.
- Guacamole.NegativeNeverEndsIff: numbers are exact here; in the original those beyond 2^53 are rounded, and one of more than 308 digits ends the loop.
- LoginThrottle.EveryRunIsBounded: each sign-in checks the lock before it can fail, with nothing in between.
- Text editing, rename, listing, the JSON and ssh-config exports, the other importers, access control, tokens, email and every page of the web client.
- Gateway restarts, several gateway nodes, and late frames on a replaced agent socket.
