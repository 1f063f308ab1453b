# elevate-kit: a verified model

elevate-kit runs one registered task in an elevated copy of the host program. The caller
(`CallTask`) creates a pipe, launches the worker, accepts it within a deadline, checks who is at
the other end, sends one request and waits for one response. The worker (`Process`) opens the pipe,
checks the host, reads the request, tries to load the module, runs the task, sends its result and
exits. This project models that code in Dafny and proves what it promises.

| file | what it holds |
|---|---|
| `Session.dfy` | one call as a state machine: caller and worker take steps in any order; bytes move in parts; either side may fail or die at any point |
| `SessionInvariant.dfy` | the inductive invariant, kept by every step of either process |
| `SessionTrace.dfy` | the second inductive invariant, over the actions of a run: what the state records is what was found, and why each process ended |
| `SessionTheorems.dfy` | the promises over all runs: at most once and after the checks, the right task of the right module, what each null means, the result, the pipe's name |
| `SessionDelivery.dfy` | runs without failures: never stuck, always closer to the end, and the end is the task's value |
| `SessionProgram.dfy` | `CallTask` and `Process` as programs over that machine, with the other process acting in between |
| `Framing.dfy` | the length-prefixed wire format: codec, prefix-freeness, decoding of any byte string |
| `LinuxPipe.dfy` | `WriteAll`/`ReadAll`/`SendMessage`/`RecvMessage` over a socket with short transfers, EINTR and errors |
| `WindowsPipe.dfy` | `WriteExact`/`ReadExact`/`SendMessage`/`RecvMessage` over a pipe read in message mode at one end and in byte mode at the other |
| `AcceptDeadline.dfy` | the polling loop of `Accept` |
| `CommandLine.dfy`, `Launch.dfy` | `WorkerCommandLine`, the C runtime's argument reader, and the two launch routes |
| `Registry.dfy` | the task table |
| `ModulePath.dfy`, `PipePath.dfy`, `Polkit.dfy` | the module path loop, socket names and their life, the two Polkit files |
| `Machine.dfy`, `JsonValues.dfy`, `Wrappers.dfy`, `WindowsTypes.dfy` | runs of a state machine, JSON values with an abstract text form, `Option`, `DWORD` |

Conventions. What the operating system decides is an arbitrary choice in a method, or a field of
an action in the state machine, so every contract and theorem is over all schedules. JSON text is a
pair of parameters `dump`/`parse`; theorems that need it assume `Faithful`, that parsing what was
dumped gives the value back. A task is an identity that may end with any value, a JSON exception, or
another exception. The length header is modelled least significant byte first; both ends are on
one machine, and nothing else depends on the order.

## Where a promise fails, and exactly when it holds

- A null from a failed send means the task never runs: true on Linux for every run
  (`EarlyNullNeverRuns`). Not so on Windows: when waiting for an overlapped write fails, the write is
  cancelled and the count it did move is ignored (windows_name_pipe.cpp:181-185), so `SendMessage`
  can fail with the whole frame delivered, and then the task still runs, for exactly the requests that
  can be run at all (`WindowsFailedSendMayRun`). On both systems, once the caller is over, a
  task that has not run can still run if and only if the request was delivered and the worker is in one
  of the five phases of `MayRun`, with the task registered by the host or the module
  (`RunsOnlyIfDelivered`).
- The pipe's name is gone once `CallTask` has returned or thrown: true on Linux (`NameGone`). On Windows
  the name exists exactly while an end is open, so it can outlast the call until the worker closes its
  own (`WindowsNameOutlasts`, `WindowsNameGone`).
- `Accept` waits no longer than its timeout exactly for timeouts below 2^31 milliseconds
  (`BoundedExactly`); from there on the cast to `int` makes poll wait for ever. `CallTask` asks for
  three seconds.
- The scheduler route delivers the session id exactly when it has no white space, quote or NUL and is
  not empty; the elevation route exactly when it has no NUL (`RoutesDeliver`). UUIDs satisfy both.
- A successful configure leaves both Polkit files with their text exactly if no buffered write was
  lost when the file was closed, which the code does not look at (`LastCallDecides`).

Where the documentation says something else, the code is followed. elevate_kit.h:39-43 gives status
0 after processing a request and -1 for a request that cannot be parsed; in the code a task's JSON
exception, or an answer that cannot be dumped, also gives -1, and a response that cannot be sent gives 0
(`Process`). README.md:144 of the repository says a null never guarantees that the task did not start;
the nulls covered by `EarlyNullNeverRuns` do guarantee it, as section 7 of doc/design.md says of time-outs.

## Model

| member | source | states |
|---|---|---|
| SessionTheorems.AtMostOnceAfterChecks | src/elevate_kit/elevate_kit.cpp:89-117 | in every run the task starts at most once, and only after accept, the caller's peer check, the worker's host check, the last byte of the request and the load attempt; each of these marks is there if and only if the run's own actions found what it stands for |
| SessionTheorems.StrangeHostRefused | src/elevate_kit/elevate_kit.cpp:89-95 | a worker that finds another executable at the host's end exits with -1, has read nothing and runs nothing |
| SessionTheorems.StrangePeerRefused | src/elevate_kit/elevate_kit.cpp:146-150 | a caller whose peer is neither the launched process nor of its own executable returns null, has sent nothing, and no task runs |
| SessionTheorems.RequestCarries | src/elevate_kit/elevate_kit.cpp:152-155 | the message the worker reads is an object of exactly the four members, each with the caller's value |
| SessionTheorems.RightTaskRuns | src/elevate_kit/elevate_kit.cpp:102-110 | the task that runs is the last valid registration of the requested name, those of the module at the caller's path coming after the host's if its load registered them, on exactly the caller's parameters; and it is that module whose load was tried before |
| SessionTheorems.UndeliveredNeverRuns | src/elevate_kit/elevate_kit.cpp:96-100 | if the caller is over before the whole request was handed over, the task never runs in any continuation |
| SessionTheorems.EarlyNullNeverRuns | src/elevate_kit/elevate_kit.cpp:131-158 | every null from before the request was sent, and on Linux a null from a failed send, means the task never runs |
| SessionTheorems.DeliveredCanRun | src/elevate_kit/elevate_kit.cpp:160-164 | once the request is delivered to a worker that is unlinking, checking the host, waiting, loading or about to dispatch, and host or module registers the task, some continuation runs it, whatever became of the caller |
| SessionTheorems.RunsOnlyIfDelivered | src/elevate_kit/elevate_kit.cpp:156-164 | for every reachable state whose caller is over: the task has run or can still run if and only if it has run, or the request was delivered and the worker is where it may run it |
| SessionTheorems.RunnableMeans | src/elevate_kit/elevate_kit.cpp:106-110 | a request that survives its text form can be run exactly if it can be sent and host or module registers its task |
| SessionTheorems.WindowsFailedSendMayRun | src/elevate_kit/windows/windows_name_pipe.cpp:180-190 | on Windows some run returns null from a failed send and runs the task all the same, if and only if the request is one that can be run at all |
| SessionTheorems.ResultIsTheTasks | src/elevate_kit/elevate_kit.cpp:160-174 | the result is null or an object; an object is the value the one task run ended with; an answered call returns that value if it is an object, else null, and null if no valid registration was found |
| SessionTheorems.OutcomeDecides | src/elevate_kit/elevate_kit.cpp:107-117 | the value a task ends with is the answer; a JSON exception gives exit -1, any other leaves Process, and neither sends anything |
| SessionTheorems.CallerEndsBecause | src/elevate_kit/elevate_kit.cpp:124-175 | every way for CallTask to end, each kind of null included, happens if and only if its own cause did |
| SessionTheorems.WorkerEndsBecause | src/elevate_kit/elevate_kit.cpp:72-118 | every exit status of the worker happens if and only if one of its causes did |
| SessionTheorems.NameGone | src/elevate_kit/linux/linux_name_pipe.cpp:32-44 | on Linux, in every run, the name exists only while the caller holds an end bound to it, listening or accepted, unless it was killed; once CallTask has returned or thrown, by any route, the destructor has taken it away for good |
| SessionTheorems.WindowsNameGone | src/elevate_kit/windows/windows_name_pipe.cpp:205-225 | on Windows the name exists exactly while an end is open, and is gone for good once the caller is over and its worker never connected or is over too |
| SessionTheorems.WindowsNameOutlasts | src/elevate_kit/windows/windows_name_pipe.cpp:205-225 | there it can outlast CallTask, while the worker holds its end |
| SessionTheorems.UnlinkedOnceConnected | src/elevate_kit/linux/linux_name_pipe.cpp:200 | on Linux the worker takes the name away as soon as it is connected, for the rest of the run |
| SessionTheorems.LeadsSince | src/elevate_kit/elevate_kit.cpp:131-158 | a caller that is over sends nothing more and never brings the name back |
| SessionInvariant.StepKeeps | src/elevate_kit/elevate_kit.cpp:89-175 | every step of caller or worker keeps the invariant that ties both program counters to the bytes on the pipe, the checks made, the task run, the answer and the name |
| SessionInvariant.ReachableInv | src/elevate_kit/elevate_kit.cpp:89-175 | that invariant holds in every state of every run |
| SessionInvariant.TakenFrame | src/elevate_kit/elevate_kit.cpp:96-103 | a whole message read by the worker is the caller's request, so the caller had sent all of it |
| SessionTrace.TracedInv | src/elevate_kit/elevate_kit.cpp:89-175 | in every run the state and the actions that led to it fit: pid, peer, host, load and answer on record are those the actions brought, and each end has its cause |
| SessionDelivery.Delivery | src/elevate_kit/elevate_kit.cpp:124-175 | in runs without failures CallTask can always be brought to its end, and at the end it has the value the task ended with (null unless an object, or if none is registered), the worker exited with 0 and the name is gone |
| SessionDelivery.NeverStuck | src/elevate_kit/elevate_kit.cpp:89-175 | in such a run, until CallTask has returned, some process can take a step that is no failure |
| SessionDelivery.StepCloser | src/elevate_kit/elevate_kit.cpp:89-175 | and every such step takes a process to a later phase or leaves fewer bytes to move, so the run ends |
| SessionProgram.CallTask | src/elevate_kit/elevate_kit.cpp:124-175 | the program's every execution is a run of the session: it throws only if the request cannot be dumped, leaves no name (on Windows none but the worker's), returns the value its one task run ended with if that is an object and came through, else null, and each way of ending has its cause |
| SessionProgram.Process | src/elevate_kit/elevate_kit.cpp:72-118 | likewise for the worker: status 0 exactly when RunTask answered with something that can be dumped, -1 exactly for the causes of giving up, and the answer is the value the task ended with; only another exception of the task gets through |
| SessionProgram.World.SendRequest | src/elevate_kit/linux/linux_name_pipe.cpp:80-87 | the caller's send: either the whole frame is out, or the call is over with null and a prefix of it out, on Linux a strict one |
| SessionProgram.World.RecvResponse | src/elevate_kit/linux/linux_name_pipe.cpp:89-99 | the caller's receive: exactly the body of one whole frame, or the call is over with null |
| SessionProgram.World.RecvRequest | src/elevate_kit/linux/linux_name_pipe.cpp:89-99 | the worker's receive, likewise; failing ends the worker with -1 |
| Framing.DecodeEncode32 | src/elevate_kit/linux/linux_name_pipe.cpp:84-91 | the 32-bit length survives the trip through its four bytes |
| Framing.EncodeDecode32 | src/elevate_kit/linux/linux_name_pipe.cpp:84-91 | and every four bytes are the header of exactly one length |
| Framing.CompleteIsFrame | src/elevate_kit/linux/linux_name_pipe.cpp:89-99 | the receiver stops exactly when what it has read is some frame |
| Framing.IncompleteIsStrictPrefix | src/elevate_kit/linux/linux_name_pipe.cpp:89-99 | the receiver is left waiting exactly on the strict prefixes of frames |
| Framing.DeframeStream | src/elevate_kit/linux/linux_name_pipe.cpp:80-99 | k whole frames and then a cut-off one decode to exactly the k messages, with the cut-off part left over |
| Framing.StreamDeframe | src/elevate_kit/linux/linux_name_pipe.cpp:89-99 | every byte string is, in one way, whole frames followed by a strict prefix of one |
| Framing.PrefixFree | src/elevate_kit/linux/linux_name_pipe.cpp:80-87 | no frame is a proper prefix of another |
| Framing.StreamInjective | src/elevate_kit/linux/linux_name_pipe.cpp:80-87 | different message lists never give the same stream |
| Framing.DeframeMonotone | src/elevate_kit/linux/linux_name_pipe.cpp:89-99 | later bytes never change the messages already decoded |
| LinuxPipe.Channel.WriteAll | src/elevate_kit/linux/linux_name_pipe.cpp:112-126 | for every schedule of short sends and EINTRs: all the data in order, or, only after the kernel refused a write, a strict prefix; it ends because bytes left and signals left decrease |
| LinuxPipe.Channel.ReadAll | src/elevate_kit/linux/linux_name_pipe.cpp:128-142 | for every schedule of short reads and EINTRs: exactly the next bytes of the stream, or fewer on an error or at the end of the stream |
| LinuxPipe.Channel.SendMessage | src/elevate_kit/linux/linux_name_pipe.cpp:80-87 | one frame; it fails only on a refused write, leaving a strict prefix, or on a payload that is too long, leaving nothing |
| LinuxPipe.Channel.RecvMessage | src/elevate_kit/linux/linux_name_pipe.cpp:89-99 | exactly one frame of the stream; a failure leaves a strict prefix of one and is an error or the end of the stream |
| LinuxPipe.SendAll | src/elevate_kit/linux/linux_name_pipe.cpp:80-87 | sending a list puts out a stream that decodes to exactly the messages sent; it stops early only when a write was refused |
| LinuxPipe.RecvUpTo | src/elevate_kit/linux/linux_name_pipe.cpp:89-99 | received messages are what the bytes read decode to, a prefix of what the whole stream does, and all of it if the stream ended without an error |
| Framing.DecodedSoFar | src/elevate_kit/linux/linux_name_pipe.cpp:80-99 | what a reader has decoded of a stream that may go on is a prefix of the whole |
| Framing.ReceivedAreSent | src/elevate_kit/linux/linux_name_pipe.cpp:80-99 | both ends together: the messages received are a prefix of those sent, in order and byte for byte, and all of them if the reader came as far as the writer |
| WindowsPipe.AlignedAppend | src/elevate_kit/windows/windows_name_pipe.cpp:82-90 | a write within the sender's current part of a frame keeps every queued pipe message within what the reader will ask for |
| WindowsPipe.AdvanceOn | src/elevate_kit/windows/windows_name_pipe.cpp:122-160 | moving through one part of a frame in two goes is moving through it in one |
| WindowsPipe.PartTaken | src/elevate_kit/windows/windows_name_pipe.cpp:122-160 | reading only the first bytes of a pipe message, as byte mode may, keeps the queue aligned and the bytes in order |
| WindowsPipe.FrameAdvance | src/elevate_kit/windows/windows_name_pipe.cpp:92-103 | a header leads to a body of the length it says, and the two together are exactly a frame |
| WindowsPipe.Pipe.ReadFile | src/elevate_kit/windows/windows_name_pipe.cpp:135-156 | the system's read: in message mode the head message as a whole or, if and only if the request was shorter than it, "more data"; in byte mode bytes of one message or several |
| WindowsPipe.Pipe.ReadExact | src/elevate_kit/windows/windows_name_pipe.cpp:122-160 | in either mode, fills the buffer with the next bytes, 32-bit offset in bounds; it never meets "more data" and fails only after a failed read |
| WindowsPipe.Pipe.WriteExact | src/elevate_kit/windows/windows_name_pipe.cpp:162-200 | writes the data in order within its part of the frame; it fails only after a failed write, leaving a prefix, strict unless the failing write moved all it was given |
| WindowsPipe.Pipe.SendMessage | src/elevate_kit/windows/windows_name_pipe.cpp:82-90 | one frame in pipe messages that never straddle header and body; on failure a strict prefix unless a write was abandoned after moving everything |
| WindowsPipe.Pipe.RecvMessage | src/elevate_kit/windows/windows_name_pipe.cpp:92-103 | in either mode, exactly one frame; "more data" never arises, however the sender's writes were split, so it fails only after a failed read, and then inside a frame |
| WindowsPipe.SendAll | src/elevate_kit/windows/windows_name_pipe.cpp:82-90 | sending a list puts out the frames of the messages sent and, after a failure, a prefix of the next, whole only if a write was abandoned |
| WindowsPipe.RecvUpTo | src/elevate_kit/windows/windows_name_pipe.cpp:92-103 | received messages are what the bytes read decode to, a prefix of what all the bytes written do |
| AcceptDeadline.BoundedExactly | src/elevate_kit/linux/linux_name_pipe.cpp:47-57 | no wait asked for passes the deadline, for any clock, exactly if the timeout fits an int of milliseconds |
| AcceptDeadline.Listener.Accept | src/elevate_kit/linux/linux_name_pipe.cpp:47-78 | under any signals and any monotone clock the time inside poll is at most the timeout; true exactly with one peer taken and its descriptor in place of the listener's; without an error it does not give up before the last millisecond, and it never blocks in accept4 with nobody waiting |
| CommandLine.WorkerCommandLine | src/elevate_kit/windows/windows_silent_elevation.cpp:576-602 | for NUL-free arguments the C runtime reads the very list back; the length is bounded |
| CommandLine.AppendBody | src/elevate_kit/windows/windows_silent_elevation.cpp:583-600 | the inner loop appends one argument's text, backslashes doubled before a quote and at the end |
| CommandLine.ScanBody | src/elevate_kit/windows/windows_silent_elevation.cpp:584-600 | the printer's pending backslashes correspond to the reader's state at every character |
| CommandLine.PrintThenParse | src/elevate_kit/windows/windows_silent_elevation.cpp:576-602 | the round trip for every NUL-free list, empty arguments, spaces, quotes and trailing backslashes included |
| CommandLine.RoundTripExactly | src/elevate_kit/windows/windows_silent_elevation.cpp:576-602 | the round trip holds if and only if no argument contains a NUL |
| CommandLine.PrinterInjective | src/elevate_kit/windows/windows_silent_elevation.cpp:576-602 | different argument lists give different command lines |
| CommandLine.TextLength | src/elevate_kit/windows/windows_silent_elevation.cpp:576-602 | the length is at most 2·length+2 per argument plus one separator between neighbours |
| Launch.LaunchElevatedService | src/elevate_kit/windows/windows_silent_elevation.cpp:666-717 | the prompt exactly when the install flag is present; otherwise the scheduler with the id of the first pipe argument, refused if there is none or it is empty |
| Launch.RoutesDeliver | src/elevate_kit/windows/windows_silent_elevation.cpp:666-717 | each route hands the worker exactly CallTask's arguments if and only if the session id is one it can carry |
| Launch.ScheduledDelivers | src/elevate_kit/windows/windows_silent_elevation.cpp:287-310 | substituting an id into the task's argument template and reading it back gives the one pipe argument if and only if the id has no white space, quote or NUL |
| Launch.ParseUnquotedExactly | src/elevate_kit/windows/windows_silent_elevation.cpp:566 | unquoted text is read back as itself if and only if it has no white space and no quote |
| Launch.LaunchForSession | src/elevate_kit/elevate_kit.cpp:134-139 | for every UUID both routes deliver the argument list CallTask built |
| Registry.LookupIsLast | src/elevate_kit/task_registry.cpp:17-31 | for every history of registrations, a name is found if and only if some valid registration has it, and then it is the last one |
| Registry.TaskRegistry.RegisterTask | src/elevate_kit/task_registry.cpp:17-22 | an empty name or callback changes nothing; any other replaces the task of its name |
| Registry.TaskRegistry.RunTask | src/elevate_kit/task_registry.cpp:24-31 | the callback invoked is that of the last valid registration; none means the answer false |
| ModulePath.GetModulePathFromAddress | src/elevate_kit/windows/windows_platform.cpp:58-72 | the loop ends; the path comes back whole, and empty only if the system refuses a call; the last buffer has room to spare, is doubled no further than needed and is at most max(260, 2·(length+1)) |
| PipePath.Injective | src/elevate_kit/linux/linux_name_pipe.cpp:148-152 | session ids of one length: different pairs, different paths |
| PipePath.ApartWithoutT | src/elevate_kit/linux/linux_name_pipe.cpp:148-152 | session ids without a `t`, as hexadecimal ids are, never share a path, of whatever lengths |
| PipePath.UuidWithoutT | src/elevate_kit/elevate_kit.cpp:127 | UUIDs are such ids |
| PipePath.SharedExactly | src/elevate_kit/linux/linux_name_pipe.cpp:148-152 | for ids of any text: a pair shares its path with another if and only if the infix occurs at another place of its own name |
| PipePath.AddressIsWhole | src/elevate_kit/linux/linux_name_pipe.cpp:163-171 | with 36-character session ids Create and Open get an address exactly for application ids of at most 49 characters, and it is the whole path |
| PipePath.Names.Create | src/elevate_kit/linux/linux_name_pipe.cpp:154-178 | it succeeds if and only if every call does and the path is shorter than 108; whatever was there before, the name exists afterwards exactly then |
| PipePath.Names.Open | src/elevate_kit/linux/linux_name_pipe.cpp:180-202 | it succeeds if and only if the calls do, the name exists and the path is shorter than 108; it then removes the name, and otherwise leaves it |
| PipePath.Names.Destroy | src/elevate_kit/linux/linux_name_pipe.cpp:32-44 | an end removes the name it is bound to, and an unbound end removes none |
| PipePath.Names.Session | src/elevate_kit/linux/linux_name_pipe.cpp:32-202 | from creation to destruction, with a worker or without, the session's own name goes and no other |
| Polkit.Host.ConfigureSilentElevation | src/elevate_kit/linux/linux_silent_elevation.cpp:108-141 | each file by itself for every way the call can go: a refused executable leaves everything as it was, no rule is written without a written policy; success leaves both files, with their texts exactly if no buffer was lost, and no other file is touched |
| Polkit.Host.RevokeSilentElevation | src/elevate_kit/linux/linux_silent_elevation.cpp:143-159 | each file goes or stays on its own, whichever removal fails; success leaves neither and touches no other; a missing file counts as removed |
| Polkit.NamesApart | src/elevate_kit/linux/linux_silent_elevation.cpp:199-211 | no two application ids share a file, and no policy file is a rule file |
| Polkit.OnlyOwnCallsMatter | src/elevate_kit/linux/linux_silent_elevation.cpp:108-159 | after any history with any failures the files of an id are those its own calls alone would have left |
| Polkit.LastCallDecides | src/elevate_kit/linux/linux_silent_elevation.cpp:108-159 | after any history an id's files are what its last call, failed or not, makes of what its earlier calls left; if it succeeded, nothing after a revoke, and after a configure both, with their texts exactly if no buffer was lost on closing |

## Left out

- COM, the Task Scheduler's own calls, tokens, SIDs and accounts: foreign calls; only the argument template and its substitution are modelled.
- fork, exec, waitpid, pkcheck, pkexec, dlopen and LoadLibraryW: launching and loading only succeed or fail.
- The command-line options of Process: it starts with a recognised session id. Installing or uninstalling in the same run does not change what follows, since their results are not looked at when there is a session id.
- JSON text and UTF-8: `dump` and `parse` are parameters; numbers that have no JSON text are not values of the model.
- Widening of arguments and UTF-16: command lines are stated on the widened characters.
- The logger, export macros, version and templates plumbing, examples and packaging: nothing to prove.
- The application id's default: the lemmas on names hold for every text as an id; that different texts name different files relies on ids having no `/`, which setting one enforces.
- Authentication strength and file permissions: the checks are modelled only as the guards they are.
- The program name in front of the worker's arguments: the reader starts after it.
- The Windows Accept: one overlapped wait that succeeds or fails, as the session models it.
- SessionProgram.World.SendRequest: EINTR does not show in the session, since it changes nothing; the loops with signals are in LinuxPipe.
- SessionDelivery.Delivery: assumes that the request, `false` and the task's values have texts that fit a frame; other values are failures in its sense.
- SessionTheorems.NameGone: assumes that no name is there before the call, that nobody else uses it, and that removing an existing name succeeds.
- PipePath.Names.Destroy: removing a name that exists is taken to succeed, and no two processes work on the names at once; the interleavings are those of the session.
- AcceptDeadline.Listener.Poll: returns no later than asked; a kernel that oversleeps adds its delay to the bound.
- WindowsPipe.Pipe.SendMessage: starts at a frame boundary, so nothing is said about sending again after a failed send, which neither program does.
- LinuxPipe.Channel.Read: an allocation failure for a huge announced length is not modelled.
- ModulePath.GetModulePathFromAddress: for paths up to the system's limit of 32767 characters; that the module is found at all is left to the system.
