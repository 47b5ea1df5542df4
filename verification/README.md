# A model of libpssh

libpssh runs copy and exec tasks on many hosts over ssh. Two state machines
share one libevent slot per host: the session machine (`src/pssh.c`) takes a
host from its DNS answer to an authenticated connection, and then the task
machines (`src/task.c`) run the host's tasks one after the other. This project
models both machines, the two drivers `pssh_connect` and `pssh_exec`, and the
data paths underneath, and proves what holds of them on every run.

## How the model is built

Each operation is written twice: as the program has it, a method of a class
that changes fields and buffers in place, and as a function on values. The
method's contract says that it computes the function; the lemmas say what the
function, and any sequence of such steps, achieves.

| module | content |
|---|---|
| `Base` | bytes, event flags, task states, return codes |
| `Streams`, `StreamBuffers` | stdout and stderr of a command: growing buffers and the alternating read loop |
| `Copying`, `CopyBuffers` | upload from a snapshot, download into a sized buffer |
| `Tasks`, `TaskObjects` | the two task machines, the event handler, termination of one task |
| `Sessions`, `SessionObjects` | the session machine of one host, the DNS callback, the quiet window |
| `Worlds` | all hosts and tasks together, one callback, the invariant `Inv` |
| `Scheduling` | `pssh_exec`, its verdicts, progress, the client's loop |
| `Connecting` | `pssh_connect`, its verdicts, the timeout path |
| `Runs` | whole runs: any mixture of callbacks, scans, and additions of hosts and tasks |
| `Handshakes` | what the events of one host lead to, and what it waits for |
| `TaskEvents` | what a task waits for, and what its timer does |
| `Histories` | what a whole run says about one host or one task |
| `Fates`, `Promises` | which tasks succeed, in terms of the outside world's answers, and the client's verdict |
| `Drivers` | the class `Pssh`: the two drivers over the objects |

The outside world is an input. What a server, the local file system or libssh2
will answer to a task is a finite script held with the task (`opens`, `starts`,
`writes`, `incoming`, `files`, the `script` of a stream); what a socket, DNS, libssh2
and the clock answer to a session callback comes with the callback (`Net`,
`DnsAnswer`). Nothing is assumed about the answers except where a lemma says
so. `EAGAIN` may come at any point.

A slot has a flag, `ev_up`, and what libevent really has pending: nothing, an
event of the session machine, or an event of one task. An event fires once. A
turn of `event_base_loop` is a list of callbacks; a driver gets the list of its
turns as an argument, and a call that outlasts the list is reported as still
waiting. A callback that libevent could not make (event not pending, flag not
asked for, timer not set) changes nothing. `Pssh` holds the session and its one
task list, because a turn of the event loop may call back hosts and tasks alike
whichever driver runs it.

A run is any mixture of callbacks, scans of the two drivers, and additions of
hosts and tasks. An allowed run is one in which `pssh_connect` does not time out
while a task is in flight: the code then disarms that task, and what depends on
the order of tasks no longer holds. What does not depend on it is proved of all
runs; the class `Pssh` works on all of them.

A local file is what successive attempts to load it find (`files`); each attempt
uses one up, so loading a file twice could give two contents. A callback that
loads a truncated file never returns and ends the real run. The model leaves the
task as it was and lets the run go on; what is proved of all runs holds in
particular of those that stop there, and the termination results say when it does
not happen.

Some components only record history: `trace` (the activations on a host, by
task), `path` (the states of a host), `marks` (the readings stored in
`last_connect` since its reset), and for a task `born` (the task as added),
`acts` (its activations) and `expired` (its timer ended it); for a copy task
`sent` is what the channel has accepted and `saved` the content of the local
target file; for a stream `asked` counts its reads.

## Where the code does less than one might think

The code is modelled as it is. For each shortfall a lemma says
exactly when it occurs, and where a lemma gives an input it is named.

- A failed stream read with code -1 is turned into 0 (`src/task.c:540-542`,
  `562-564`), and the exit test then overwrites ERROR with DONE. A command gets
  through, to DONE, if and only if no turn in which both streams ask to wait
  comes after or with a failed read and before both have given 0
  (`Streams.ThroughIff`); so a failed read is masked, or shows as ERROR. A DONE
  command is sure to hold the whole remote stdout if and only if no byte follows
  such a failure (`Streams.StdoutComplete`, `Streams.StderrComplete`). Inputs:
  `Streams.MaskedFailure`, `Streams.ExposedFailure`. Other negative codes are
  not translated and the loop simply goes round again.
- The loop that reads a local file for upload never ends exactly when the file
  is shorter than `stat` said and no read fails (`Copying.LoadOutcome`). Input:
  `Copying.SpinningFile`.
- A download whose server stops short of the announced size without an error is
  activated for ever. These two are the only tasks that never end
  (`Tasks.EndsExactlyWhenLive`). Input: `Tasks.StarvingDownload`.
- When `connect` succeeds at once the host stays in RESOLVED with nothing
  pending; `pssh_connect` stalls on it and on no other host
  (`Connecting.ConnectStallsIff`, `Connecting.ResolvedForEver`). Input:
  `Connecting.StalledHost`.
- A timeout of `pssh_connect` while a task is in flight disarms that task, which
  then never moves again; the invariant survives a timeout exactly when no task
  is in flight (`Connecting.TimeoutKeepsIff`, `Connecting.TimeoutStrands`,
  `Runs.StrandedForEver`).
- `PSSH_SUCCESS` of `pssh_exec` says nothing about tasks whose host is unknown or
  not connected: all tasks are then DONE if and only if none was skipped
  (`Scheduling.SuccessIff`). Input: `Scheduling.SuccessWithoutHost`.
- A task that fails goes on holding its host's slot if and only if it fails in
  CMD_RUNNING (`Worlds.FailedHolderIff`); ownership of the slot is therefore
  stated for tasks that have not finished (`Runs.SlotOwnership`). Input:
  `Worlds.FailedHolder`.

## Model

| member | source | states |
|---|---|---|
| Promises.ClientVerdict | src/task.c:750-811 | After any allowed run and on any schedule: once the client's loop (`example/ex1.c:55-59`) has ended, it ends with SUCCESS exactly when each task of a connected host got answers that let it succeed and was not ended by its timer, and with FAILED otherwise; exactly those tasks are DONE and returned, with what they were to deliver |
| Promises.TransfersFaithful | src/task.c:211-408 | On every run and in every state: an upload has tried to load its file at most once and sent a prefix of what that attempt found, `tcnt` bytes while under way, all of it when DONE; a download leaves the local file alone until all announced bytes are in and then writes only their beginning; both command buffers are prefixes of the remote streams |
| Promises.EndIsFate | src/task.c:669-746 | On every run a task that ended by itself is DONE exactly when the outside world's answers let it succeed, as `Fates.DoneExactlyWhen` spells out |
| Promises.ClientIsRun | src/task.c:750-811 | The whole client's loop is a run of callbacks and scans |
| Runs.RunIsSequential | src/task.c:83-106 | Refinement to a sequential executor: on every allowed run the activations on a host are those of its tasks run one after the other in list order, and each task is what it would be if run alone |
| Runs.RunsAlone | src/task.c:669-712 | On every run whatsoever each task that its timer did not end is what it would be if run alone |
| Runs.StatesOfRuns | src/task.c:412-447 | On every run a copy task is never in CMD_RUNNING, an exec task never in DATA_TRANSFER, and neither in STREAMS_READED between callbacks |
| Runs.SlotOwnership | src/task.c:83-106 | On every allowed run a task in CHANNEL_READY, DATA_TRANSFER or CMD_RUNNING holds its host's slot, so at most one per host; a slot held by a task is held by a task of that host that is not DONE |
| Runs.CallbackInTurn | src/task.c:726-746 | On every allowed run a callback of a task finds all earlier tasks of its host finished and all later ones never activated |
| Runs.SameResult | src/task.c:669-712 | Any two runs that bring the same task to its end agree on its state, buffers, counters and exit code, however the hosts are interleaved |
| Runs.ClientTerminates | src/task.c:750-811 | After any allowed run, if every task can end, the client's loop ends, for every event loop whose turns each call back somebody: within as many turns as the work of the tasks, the steps of the handshakes still to come, and the callbacks on the way that make a host wait (EAGAIN or a timer expiry while connecting). With all hosts settled nobody waits and each host adds at most one turn. There is one more call than tasks returned |
| Runs.NoVerdictWhileStarved | src/task.c:796-804 | No verdict is given while a connected host has a task that cannot end |
| Runs.DoneIsFrozen | src/task.c:698-706 | From DONE on, nothing about a task but its report mark changes on any run |
| Runs.ErrorStays | src/task.c:651-654 | ERROR is absorbing on every run |
| Runs.TaskReportedOnce | src/task.c:778-788 | On every run a task is returned with RUNNING at most once |
| Runs.HostReportedOnce | src/pssh.c:438-448 | CONNECTED is absorbing and a host is returned with PSSH_CONNECTED at most once, on every run |
| Runs.TwoPhases | src/pssh.c:281-393 | On every run the slot is the session machine's until CONNECTED and the tasks' from then on, a lowered `ev_up` means nothing is pending, a pending DNS answer implies NONE or ERROR, and a connected host came through all states of the handshake in order |
| Runs.RunMarks | src/pssh.c:336-338 | On every run with a positive clock that never runs back, `last_connect` is the last time at which the run connected a host since the last verdict, or the first timer expiry if there was none, and 0 without either |
| Runs.TimeoutMeansQuiet | src/pssh.c:373-385 | On every such run the timeout is raised only by a callback that comes at least as many seconds as the last `pssh_connect` asked for after every connection the run has made since the last verdict, and after the first timer expiry, one of which there has been |
| Runs.TimeoutRaisedIff | src/pssh.c:373-385 | Both ways: on every such run a step raises the timeout if and only if it is a timer expiry of a host that comes at least as many seconds as the last `pssh_connect` asked for after the last connection since the last verdict, or the first expiry; the next scan of the hosts then gives PSSH_TIMEOUT |
| Runs.TimeoutStored | src/pssh.c:420 | The length of the window is the argument of the last call of `pssh_connect` |
| Runs.ConnectionInTimes | src/pssh.c:336-338 | Every connection made since the last verdict is among the times the quiet window looks at |
| Runs.StrandedForEver | src/pssh.c:397-436 | A task disarmed in flight never moves again on any run |
| Runs.RunKeepsInv | src/task.c:669-808 | Every allowed run keeps the invariant |
| Runs.ReachedInv | src/pssh.c:281-479 | Every state reached by an allowed run satisfies the invariant |
| Runs.RunSound | src/pssh.c:397-479 | Every run, even one that strands a task, keeps the hosts, the tasks and the owners of slots sound |
| Runs.StepKeeps | src/task.c:750-811 | Every single allowed step keeps it: callback, either scan, or an addition |
| Runs.ExecIsRun | src/task.c:757-808 | A call of `pssh_exec` is a run of scans and callbacks |
| Runs.ConnectIsRun | src/pssh.c:424-481 | So is a call of `pssh_connect` |
| Runs.AddServerKeeps | src/pssh.c:249-277 | Adding a host at any time keeps the invariant; what is added, see `Histories.AddedHost` |
| Runs.AddTaskKeeps | src/task.c:124-204 | Adding a task at any time keeps the invariant |
| Runs.FindEntryIs | src/task.c:59-67 | The host found is the first of that name, and none is found only if there is none |
| Fates.DoneExactlyWhen | src/task.c:412-447 | A task run alone reaches DONE if and only if: upload: the first attempt reads as many bytes as `stat` announced, the channel is opened, every byte written; download: the channel can be opened, the server delivers the announced bytes, the local file opens, takes exactly so many and closes; command: it can be started and no failed read is exposed by both streams asking to wait before both have given 0 |
| Fates.ReliableCommand | src/task.c:596-665 | Total correctness: a command that can be started and meets no failed read ends in DONE with the exit status and both entire streams |
| Fates.RunFate | src/task.c:669-712 | No activation changes whether the remaining answers let the task succeed |
| Fates.NthFate | src/task.c:669-712 | Nor does any number of them |
| Handshakes.HandshakeConnects | src/pssh.c:281-361 | A host whose DNS answer, connect, startup and authentication go well gets connected, through however many EAGAINs, by events that libevent can make when their turn comes; the slot is then free and only the authentication has stored a clock reading, its own |
| Handshakes.AgainWaits | src/pssh.c:320-345 | While libssh2 says EAGAIN a host stays in its state, with the event pending that libssh2 asks for |
| Handshakes.HandshakeIff | src/pssh.c:297-351 | For every sequence of events of a host in WAIT_CONN: CONNECTED exactly when the first writable event finds no socket error, the first startup answer behind it other than EAGAIN is OK, and so is the first authentication answer behind that; ERROR exactly when the first bad one of these has come; else still at the one that has not |
| Handshakes.ConnectingStays | src/pssh.c:297-310 | Nothing but a writable socket takes a host out of WAIT_CONN, no expiry of its timer does |
| Handshakes.DnsOutcome | src/pssh.c:79-192 | A DNS answer gives ERROR exactly when there is no address, looked up or literal, or no socket, or `connect` fails; otherwise WAIT_CONN waiting to write, or RESOLVED if `connect` succeeds at once |
| Handshakes.HostWaitsFor | src/pssh.c:143-151 | What a host waits for after each kind of callback |
| Handshakes.ClosingIff | src/pssh.c:373-381 | An event raises the timeout exactly when it is a timer expiry `timeout` or more after `last_connect`; it then moves nothing |
| Histories.HandshakeOnRun | src/pssh.c:281-393 | The same on every run without a timeout verdict, whatever other hosts and tasks do: the state of a host is decided by its own first writable event and first answers |
| Histories.HostAlone | src/pssh.c:365-393 | On such a run the state of a host is what its own events make of it |
| Histories.ConnectingWaits | src/pssh.c:186-190 | On every run a host in WAIT_CONN with its event pending can be called back when the socket is writable |
| Histories.AddedHost | src/pssh.c:257-275 | A host is added under its name, last, in NONE with its query pending; nothing else changes |
| Histories.TaskFindsHost | src/task.c:135 | A task added for a host just added belongs to a host of that name; other tasks belong where they would have without it |
| Histories.TaskOfHost | src/task.c:124-140 | On every run, ever after, a task belongs to the first host of its name that had been added by then, or to none if there was none, with the timer asked for |
| Histories.TimerEndedIff | src/task.c:735-739 | On every run a task counts as ended by its timer exactly if some callback was the expiry of that timer and nothing else; it is then in ERROR and a command shows exit status 1 |
| Histories.ConnectStores | src/pssh.c:420-481 | A call of `pssh_connect` stores its argument and is a run that does so first |
| TaskEvents.TimerEndsTask | src/task.c:735-739 | A pure timer expiry puts the unfinished task into ERROR, a command with exit status 1, frees the slot and changes nothing else |
| TaskEvents.ExpiredBy | src/task.c:735-744 | No other callback ends a task by its timer |
| TaskEvents.CallbackWaitsFor | src/task.c:688-706 | What a task waits for after a callback, in terms of the answer it met: EAGAIN in CMD_RUNNING: readability; any other EAGAIN: the direction libssh2 was blocked on; else writability, unless it has finished or is still loading a truncated file |
| TaskEvents.RunAgainIff | src/task.c:302-323 | An activation returns EAGAIN exactly when the answer it meets is EAGAIN |
| TaskEvents.ScanWaitsFor | src/task.c:766-770 | A task that takes the slot in a scan waits for writability, with its timer; no other slot changes |
| TaskEvents.HolderCanFire | src/task.c:93-101 | A pending task event can be what it waits for, and a timer expiry exactly if the task was added with one |
| Scheduling.NoStall | src/task.c:759-807 | Whenever `pssh_exec` enters the event loop, each connected host with an unfinished task has an event pending for one of its own tasks, and there is such a host |
| Scheduling.ExecOutcome | src/task.c:757-810 | What each outcome of `pssh_exec` means; tasks are returned in list order among those waiting to be; while it waits there is nothing to return and a task is unfinished |
| Scheduling.SuccessIff | src/task.c:796-801 | With SUCCESS all tasks are DONE if and only if none was skipped |
| Scheduling.SuccessWithoutHost | src/task.c:761-763 | Input: the only task has an unknown host and is never started |
| Scheduling.ExecKeeps | src/task.c:750-811 | A call of `pssh_exec` keeps the invariant on any schedule |
| Scheduling.ExecReports | src/task.c:778-784 | A call marks the task it returns, which was not marked, and no other |
| Scheduling.ExecBound | src/task.c:757-808 | Measure argument: on any schedule, each turn of a call that calls back a task uses up work |
| Scheduling.ExecEnds | src/task.c:757-808 | A call takes no more turns than work, handshake steps, and callbacks that make a host wait, for every event loop whose turns each call back somebody |
| Scheduling.ClientReports | src/task.c:778-788 | Over the whole client's loop the tasks returned are pairwise different and exactly those that became reported; calls = tasks returned + 1 |
| Scheduling.ClientBound | src/task.c:750-811 | On any schedule the loop makes at most `Work` turns that call back a task |
| Scheduling.ClientOutcome | src/task.c:791-804 | When the loop ends no task of a connected host is unfinished, DONE ones have been returned, and SUCCESS means all are DONE |
| Scheduling.ClientEnds | src/task.c:750-811 | For every such event loop the client's loop ends with a verdict if every task can end |
| Scheduling.ScanKeeps | src/task.c:759-789 | A scan keeps the invariant; it reports only a DONE task, the first not yet reported, or has looked at all |
| Scheduling.ScanSame | src/task.c:759-789 | A scan changes nothing but start marks, one report mark and free slots |
| Scheduling.FreeSlot | src/task.c:766-771 | A task is given the slot only when all earlier tasks of its host have finished and all later ones are untouched |
| Scheduling.GrantKeeps | src/task.c:766-771 | Starting a task keeps the invariant |
| Scheduling.FireWork | src/task.c:726-746 | Every callback of a task uses up work, and no other callback adds any |
| Scheduling.FirePotential | src/task.c:726-746 | Every callback, of host or task, brings the end nearer unless it makes a host wait |
| Scheduling.SettledClient | src/pssh.c:352-355 | With all hosts settled and no DNS answer due, no callback of the client's loop makes a host wait |
| Worlds.FireKeeps | src/task.c:726-746 | Every callback keeps the invariant of all hosts and tasks |
| Worlds.FireSound | src/pssh.c:365-393 | Every callback keeps what holds on every run |
| Worlds.TaskFireFired | src/task.c:688-746 | After a callback a task holds the slot again, or the slot is free and it has finished or the call never returned |
| Worlds.FailedHolderIff | src/task.c:688-706 | A task that fails goes on holding its host's slot if and only if it fails in CMD_RUNNING |
| Worlds.FailedHolder | src/task.c:638-641 | Input: a failed read of stdout, then both streams ask to wait |
| Worlds.SequentialBump | src/task.c:669-712 | An activation in turn extends the sequential trace at its end |
| Worlds.FiredInOrder | src/task.c:90-103 | No callback lets a task overtake an earlier one of its host |
| Worlds.HostFiredKeeps | src/pssh.c:365-393 | Session callbacks leave the tasks' part of the invariant intact |
| Connecting.ConnectScanOutcome | src/pssh.c:424-477 | Which verdict a scan gives, in which case only, and what it means for every host |
| Connecting.ConnectStallsIff | src/pssh.c:424-479 | Whenever `pssh_connect` enters the event loop, an unsettled host has an event or a DNS answer pending if and only if it is not in RESOLVED |
| Connecting.StalledHost | src/pssh.c:180-191 | Input: a host for which `connect` succeeds at once keeps `pssh_connect` waiting with nothing pending |
| Connecting.ResolvedForEver | src/pssh.c:180-191 | A host is left in RESOLVED only when `connect` succeeds at once, and then no callback moves it |
| Connecting.TimeoutKeepsIff | src/pssh.c:428-461 | The timeout path keeps the invariant if and only if no task is in flight |
| Connecting.TimeoutStrands | src/pssh.c:397-408 | A timeout leaves a task in flight with no event |
| Connecting.TimeoutSettles | src/pssh.c:428-461 | After PSSH_TIMEOUT every host is CONNECTED, exactly if it was before, or ERROR; no event is pending and the window is closed |
| Connecting.SettledDrains | src/pssh.c:438-477 | In any state with all hosts settled: the k unreported connections are returned by exactly the next k calls, each once, followed by FAILED or SUCCESS, without any callback |
| Connecting.TimeoutDrains | src/pssh.c:428-477 | After PSSH_TIMEOUT, stranded tasks or not, the k connections unreported before it are returned by the next k calls, then SUCCESS if every host had been connected, else FAILED |
| Connecting.ConnectScanSound | src/pssh.c:424-477 | A scan keeps what holds on every run, whatever its verdict |
| Connecting.ConnectLoopKeepsIff | src/pssh.c:424-481 | A call keeps the invariant if and only if it does not time out with a task in flight |
| Sessions.SessFireKeeps | src/pssh.c:365-393 | A session event keeps the host's invariant; reaching CONNECTED leaves the slot free |
| Sessions.DnsFireKeeps | src/pssh.c:79-122 | So does a DNS answer, even for a host already given up; it never demotes a connection |
| Sessions.SessFsmKeeps | src/pssh.c:281-361 | Every step of the session machine leads to a state with its event pending, a final one, or RESOLVED; CONNECTED comes from WAIT_AUTH only |
| Sessions.SessFsmPath | src/pssh.c:292-359 | The states passed since the DNS answer are those of the handshake, in order; when each is reached, see `Handshakes.HandshakeIff` |
| Sessions.QuietWindow | src/pssh.c:373-385 | One event: the timeout is raised only if every stored reading is at least `timeout` old, and connecting stores the new one; the converse is `Handshakes.ClosingIff` |
| Tasks.EndsExactlyWhenLive | src/task.c:337-373 | A task comes to an end if and only if it is neither a download whose server stops short of the announced size without an error nor an upload that meets a truncated file |
| Tasks.StarvingDownload | src/task.c:347-371 | Input: one byte is announced and none comes |
| Tasks.RunShrinks | src/task.c:412-447 | Every activation of an unfinished task decreases a measure over state, bytes left and answers left, and changes nothing about whether it can end |
| Tasks.EndsAfter | src/task.c:669-712 | Such a task is in DONE or ERROR after at most that many activations |
| Tasks.RunKeeps | src/task.c:688-710 | Closure: no activation aborts, fails the cleanup assertion or returns a code other than 0 or EAGAIN, and it returns unless it loads a truncated file |
| Tasks.RunExecKeeps | src/task.c:596-665 | The exec machine keeps its invariant |
| Tasks.AgainNotDone | src/task.c:688-697 | A task told to wait is not DONE |
| Tasks.ExpireKeeps | src/task.c:735-739 | A timer expiry keeps the task's invariant; what it does, see `TaskEvents.TimerEndsTask` |
| Tasks.DoneDelivers | src/task.c:390-408 | DONE: the file was loaded once and the channel got exactly its first `st_size` bytes as read then; or the local file holds exactly the announced bytes; or the exit status and the streams are those of the server |
| Tasks.OneResult | src/task.c:651-659 | A task has at most one result |
| Copying.RunCopyKeeps | src/task.c:412-447 | Every step of a copy task keeps fidelity and returns unless it loads a truncated file; at most 8192 bytes are written at a time |
| Copying.SendKeeps | src/task.c:302-333 | After each write the channel has accepted exactly `data[0..tcnt]` |
| Copying.RecvKeeps | src/task.c:337-373 | After each read the buffer is exactly what the server has delivered; the file is written only when it is complete |
| Copying.RecvSaves | src/task.c:355-369 | The local file is touched only with all announced bytes in, if it opens, and then holds as much of them as write has taken; DATA_TRANSFER means it took exactly all and closed |
| Copying.SnapshotKeeps | src/task.c:218-245 | Of the attempts to load the file only the first is ever made: it gives the snapshot, whole, or an error, or never returns |
| Copying.AgainChangesNothing | src/task.c:314-323 | EAGAIN leaves state, count, buffer, sent bytes and, with a snapshot there, the file alone |
| Copying.LoadOutcome | src/task.c:233-242 | The read loop yields exactly the first `want` bytes that can be read; or, if a read fails before, all read until then; it spins if and only if the file is shorter and no read fails |
| Copying.SpinningFile | src/task.c:233-242 | Input: a file of one byte for which `stat` said two |
| Streams.StdoutComplete | src/task.c:533-551 | A command reported as done has the whole remote stdout, on every stderr behaviour, if and only if no byte follows a hard failure |
| Streams.StderrComplete | src/task.c:555-574 | The same for stderr |
| Streams.ThroughIff | src/task.c:618-643 | A running command is read to its end if and only if no failed read is exposed: no turn in which both streams ask to wait comes after or with it and before both have given 0; otherwise it ends in ERROR |
| Streams.DrainWaitsIff | src/task.c:638-641 | An activation goes back to waiting exactly when both streams ask to wait in one turn before both have given 0 |
| Streams.MaskedFailure | src/task.c:538-546 | Input: a hard failure before the last byte of stdout, nothing on stderr: done, and the byte is missing |
| Streams.ExposedFailure | src/task.c:638-641 | Input: the same failure, then both streams ask to wait: ERROR |
| Streams.ReliableDrive | src/task.c:610-645 | Without failed reads the command ends with both streams at EOF and both buffers complete |
| Streams.DrainKeeps | src/task.c:618-643 | One activation ends, keeps the two streams' bytes apart and in order, and waits again only when neither is at EOF |
| Streams.DrainLeavesEof | src/task.c:622-625 | A stream at EOF is not read again |
| Streams.DrainSwap | src/task.c:618-643 | The loop treats the two streams alike |
| Streams.DrainStopsAtFailure | src/task.c:538-546 | A hard failure ends the loop as if at EOF, and the command counts as done |
| Streams.ReadKeepsStream | src/task.c:499-529 | After every read `alloc == 8192 * (len / 8192 + 1)`, there is room, and 0 means EOF and nothing else |
| Streams.ReadConserves | src/task.c:508-527 | A read appends exactly what the server gives up |
| Streams.ReadMeans | src/task.c:536-550 | What the loop gets for each kind of answer: only the code -1 is read as EAGAIN or as 0 |
| StreamBuffers.Stream.Read | src/task.c:499-529 | The in-place read computes `ReadStream`, with reallocation preserving the content |
| StreamBuffers.Stream.Grow | src/task.c:523-526 | Reallocation by one block preserves the first `len` bytes |
| StreamBuffers.Stream.Keep | src/task.c:521-526 | The bytes just stored are kept, and the buffer grows by one block exactly when full |
| StreamBuffers.Stream.ReadWrapped | src/task.c:533-574 | The wrappers compute `Streams.ReadWrapped` |
| CopyBuffers.CopyTask.ReadFile | src/task.c:233-242 | The loop fills the buffer with exactly what `Load` says, or is found never to end |
| CopyBuffers.CopyTask.LoadSnapshot | src/task.c:218-245 | The `data == NULL` branch computes `TakeSnapshot` |
| CopyBuffers.CopyTask.GetScpChannel | src/task.c:289-298 | Opening the channel computes `Copying.GetScpChannel` |
| CopyBuffers.CopyTask.SendData | src/task.c:302-333 | Sending computes `Copying.SendData` |
| CopyBuffers.CopyTask.RecvData | src/task.c:337-373 | Receiving computes `Copying.RecvData` |
| CopyBuffers.CopyTask.WriteFile | src/task.c:356-368 | Writing the file succeeds exactly when it is opened, takes all `st_size` bytes and closes |
| CopyBuffers.CopyTask.Cleanup | src/task.c:390-408 | Cleaning up computes `CleanupCopy` |
| TaskObjects.ExecTask.ReadOutput | src/task.c:618-643 | The endless loop over both buffers computes `Drain` and ends |
| TaskObjects.ExecTask.Turn | src/task.c:619-625 | One turn computes `Iterate` |
| TaskObjects.ExecTask.RunCommand | src/task.c:610-645 | The CMD_RUNNING branch computes `Tasks.ReadOutput` |
| TaskObjects.ExecTask.GetExecChannel | src/task.c:455-471 | Opening the channel computes `Tasks.GetExecChannel` |
| TaskObjects.ExecTask.DoCmd | src/task.c:475-495 | Starting the command computes `Tasks.DoCmd` |
| TaskObjects.Task.RunCopyTask | src/task.c:412-447 | The copy machine over the buffers computes `Run`; `abort` is not reached |
| TaskObjects.Task.RunExecTask | src/task.c:596-665 | The exec machine over the buffers computes `Run` in every state |
| TaskObjects.Task.Rearm | src/task.c:688-710 | After EAGAIN the task waits for readability in CMD_RUNNING and else for the direction libssh2 was blocked on; after 0 for writability unless finished; the unexpected-code branch is dead |
| TaskObjects.Task.Fsm | src/task.c:669-712 | `pssh_task_fsm` computes `TaskFsm` on task and host |
| TaskObjects.Task.EventHandler | src/task.c:726-746 | `pssh_task_event_handler` computes `TaskFire` on task and host; a pure timer expiry leaves ERROR, exit status 1 and a free slot |
| TaskObjects.Task.EventUpdate | src/task.c:83-106 | The slot is taken only when it is free, for the task and the direction asked for, with its timer |
| TaskObjects.Task.EagainHandle | src/task.c:110-119 | A free slot is taken for the direction libssh2 was blocked on |
| TaskObjects.Task.Copying | src/task.c:124-170 | A new copy task is in NONE, unreported, with its host looked up |
| TaskObjects.Task.Executing | src/task.c:124-202 | So is a new exec task |
| SessionObjects.SessEntry.Fsm | src/pssh.c:281-361 | `pssh_fsm` computes `SessFsm`; from WAIT_CONN only a writable socket leads on, to DONE_CONN or with an error to ERROR; each answer of libssh2 leads on, waits or fails |
| SessionObjects.SessEntry.EventHandler | src/pssh.c:365-393 | `pssh_event_handler` computes `SessFire`; an expiry `timeout` or more after `last_connect` raises the timeout and moves nothing |
| SessionObjects.SessEntry.DnsCb | src/pssh.c:79-122 | `pssh_dns_cb` computes `DnsFire` |
| SessionObjects.SessEntry.Connect | src/pssh.c:156-192 | `pssh_conn` computes `Conn`; a connect in progress waits until it can write |
| SessionObjects.Session.ShutdownEvents | src/pssh.c:397-408 | Every raised event is taken down |
| SessionObjects.Session.GiveUpUnconnected | src/pssh.c:455-460 | Every host not connected becomes ERROR, no other changes |
| SessionObjects.Session.FindEnt | src/task.c:59-67 | The first host of that name, or none |
| Drivers.Pssh.ServerAdd | src/pssh.c:249-277 | A host is added at the tail under its name and port with its DNS query pending; nothing else changes |
| Drivers.Pssh.AddCp | src/task.c:153-172 | -1 and no change on an empty string, else a new task at the tail |
| Drivers.Pssh.AddCmd | src/task.c:190-204 | The same for a command |
| Drivers.Pssh.Callback | src/task.c:726-746 | A callback changes the one host and task concerned as `Fire` says, and nothing else |
| Drivers.Pssh.BaseLoop | src/task.c:807 | One turn of the event loop computes `FireAll` |
| Drivers.Pssh.ScanTasks | src/task.c:758-796 | The scan computes `Scan`; its counters add up exactly when every task is skipped, failed or reported, and `err` counts exactly when one failed |
| Drivers.Pssh.Exec | src/task.c:750-811 | `pssh_exec` over the objects computes `ExecCall` and returns a DONE task or NULL |
| Drivers.Pssh.ScanHosts | src/pssh.c:425-477 | One turn of the loop with its counters computes `ConnectScan` |
| Drivers.Pssh.TimeOut | src/pssh.c:428-461 | Shutdown and giving up together compute `GiveUpAll` |
| Drivers.Pssh.Connect | src/pssh.c:412-483 | `pssh_connect` over the objects computes `Connect`; an invariant that held before holds after if and only if it does not time out with a task in flight |

## Left out

- libssh2, libevent, evdns, sockets and the file system: their answers are
  inputs; reads and writes return at most the requested length, `event_add`
  returns 0, each host's DNS callback comes at most once.
- How long a timer runs: a timer that is set may expire at any time, and the
  clock readings come with the callback.
- The order of the two reads within a turn of the loop: the answers of the two
  streams are given separately.
- Answers that never end: the scripts of a task are finite.
- Sizes are unbounded; the code keeps them in `int` (`src/task.c:306`).
- Several task lists on one session, and the NULL task list test of the two add
  functions: there is one list per session.
- What happens after a callback that never returns: the real run ends there, the
  model's may go on.
- Runs.RunKeepsInv: runs in which `pssh_connect` times out while a task is in
  flight are not allowed; `Connecting.TimeoutKeepsIff` and
  `Runs.StrandedForEver` say what happens in them, `Runs.RunSound` and the
  results stated for every run still hold.
- Scheduling.ExecEnds: the callbacks that make a connecting host wait are counted
  and not bounded; libssh2 may ask for any number of them.
- `abort()` and the branch for unexpected return codes: proved unreachable.
- `pssh_init`, credentials, resolv.conf parsing, debug printing, the addresses
  themselves and `ssh_sess`.
- Fixed-size name buffers, `malloc` and `free`, `pssh_free` and
  `pssh_task_list_free`: memory layout; names are strings.
- The pointer encoding of the TAILQ: a sequence with append and in-order scan.
- Accessors, iterators and the mapping to public status names; `src/xsys.c`,
  `src/oper.h`, and the example programs but for the client's loop.
