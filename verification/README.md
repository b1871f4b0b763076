# A verified model of the distributed task dispatcher

A console holds a table of tasks and hands them, over TCP, to daemons on other machines; a daemon runs
what it gets, reports each finished task together with its new credit in one packet, and forgets it.
The project models this scheduler and proves what it keeps over every run: any table, any number of
daemons, any interleaving and delay, disconnects at any point. Around that core it models how the table
is built and paths are relocated, how the main thread counts results, how a daemon decides to connect,
and two vendored algorithms: `call_once` and the checker of hash implementations.

Layout, one module a file:

- `TaskTable`, `Lifecycle`: the meaning of each server operation on the table, and the table as
  single-row events; `Server`: the server class, each method proved against that meaning.
- `ProcessObject`, `DaemonClient`: the daemon's end; the report-and-erase loop against a filter.
- `Dispatch`: the whole system as a step relation built from those meanings; `Ownership`, `Finality`,
  `Verdicts`, `Credit`, `Commitment`, `Pacing`, `Effort`, `Knowledge`: what every run keeps, what bounds it and
  what it comes to; `Obstacles`, `Progress`, `Staffing`: from where the build can still be finished.
- `Console`: the completion scan of the main thread under an arbitrary server schedule.
- `Text`, `Loader`, `Wildcards`, `Paths`: substitution, the building of the table, what a `*` selects,
  relocation from end to end.
- `UdpDaemon`, `WorkTime`: when a daemon connects, and how many cores it offers.
- `CallOnce`, `HashChecker`: the vendored algorithms.

What is assumed of code that is not visible (`su::Net`, `su::fs`, `su::Process`, the protobuf messages):
the server's callbacks run one after the other on its thread; a connection delivers reliably and in
order until it closes, and what is queued can still be read after that; a client's disconnect
is handled once, before the client is removed; a packet that parses carries its fields unchanged, and
sending it from the server succeeds; `fullId()` is not empty; `fs::OK` is 0; what `su::fs::save` returns
depends on the packet alone within one step; a callback that returns `false` closes the connection, and a
daemon takes no further steps on a closed one; a process that has been seen to exit keeps its exit code.
`String_replace` replaces all occurrences, left to right
without overlaps; texts are taken as case-folded; an empty project directory leaves a text alone.
Memory is sequentially consistent, the callable of `call_once` does not throw, and the wait function, whose
body is not part of the repository, does what its header promises: it executes the transition table and
sleeps only on a value without a row, and only while the word still has that value.

What the proofs turned up:

- The credit in a report counts the tasks the daemon has, including the one being reported, and not those
  on their way to it. So a daemon with one free core stalls after its first task
  (`Pacing.OneCoreStalls`), and with three cores or more delays can pile up any number of tasks on one daemon;
  with at most two they cannot (`Commitment.BoundedExactlyUpToTwo`). In lock-step the cores bound it always
  (`Pacing.LockStepBound`). All this is about one daemon; the others may have any cores.
- A daemon is started with its projects and closes the connection on a task of any other, while the console
  calls for daemons with the name of its first project only. A task whose project no daemon was started with
  is never done, however many come (`Knowledge.UnknownProjectStalls`).
- From any state of any run with daemons that keep their cores, the build can be finished without a new daemon
  exactly when every task that is left is ahead of the obstacles on its connection, or can be given to somebody: to a
  daemon that knows its project, over a connection without an obstacle, who has two cores or more, or a single
  core, unused, and no other task to take (`Staffing.FinishableExactly`). With two cores or more everywhere each task
  can be looked at by itself, whatever projects each daemon knows (`Staffing.ServedExactly`). A daemon with one
  core finishes one task in all (`Commitment.OneCoreGetsOneTask`), so alone it can finish the build exactly when no
  more than that is left (`Staffing.LoneCoreExactly`).
- Nothing else holds the build up. Every run is short (`Effort.EveryRunIsShort`), and when nothing can be done
  any more, while one daemon with two cores or more is connected, all is done but what daemons that have
  closed still own (`Effort.QuiescentMeansDone`).
- The application path is never taken out of the console's project directory, although the daemon
  looks for the tag in it. It comes out right exactly when it does not contain that directory, or the daemon's is
  the same (`Paths.ApplicationIsRelocatedExactly`); otherwise the console's is launched
  (`Paths.ApplicationIsNotRelocated`).
- If the first of the two process queries fails and the second answers, a living process is reported
  with a code that the console counts neither as success nor as an error (`Verdicts.RaceIsNotCounted`);
  what the totals of a finished scan miss of the whole table are these reports, one each
  (`Verdicts.FinishedScanMissesRaces`). A process that exits with code 259 is taken for running, and its
  task stays in the daemon's list unreported in every pass (`DaemonClient.ReportedUnless259`).
- There is no replacement for `$(odir)`: the tag is in a text afterwards exactly when it was before
  (`Paths.OdirStays`).
- Stars in a file's name select the files that match exactly when there is one, as the first character, behind a
  backslash (`Wildcards.WildcardIsRight`); `d\a*.c` does not select `d\ab.c`, nor `d\*.c*` `d\a.cc`
  (`Wildcards.WildcardMisses`). The scan of a directory throws exactly when an entry is shorter than the mask
  (`Loader.ShortNamesThrow`).
- The successive replacements are the simultaneous one for every template exactly when no value is changed by
  the later ones (`Text.SimultaneousExactly`), so whenever no value mentions a variable that is replaced later
  (`Text.SimultaneousWithoutLaterTags`); a value that is itself such a tag is expanded again
  (`Text.ValuesAreExpandedAgain`).

## Model

| member | source | states |
|---|---|---|
| TaskTable.FirstEligible | console/tcp_protobufserver.cpp:112-119 | the first row that has neither an owner nor a result |
| TaskTable.FirstOwned | console/tcp_protobufserver.cpp:153-160 | the first row that the client owns under that id |
| TaskTable.OnlyTheOwnerCounts | console/tcp_protobufserver.cpp:151-186 | a result is accepted exactly when it comes from the owner of a row with its id; then only the first such row changes, otherwise none; the exit code booked is the process's, and the status of saving if it is 0 and there is output, so the row is a success exactly if the process exited with 0 and its output, if any, was saved |
| TaskTable.PassIsMatching | console/tcp_protobufserver.cpp:33-42 | one pass is an order-preserving matching: the k-th client with credit gets the k-th eligible task, all other rows and credits stay |
| TaskTable.EligibleIndices | console/tcp_protobufserver.cpp:112-119 | the eligible rows, all of them, in table order |
| Lifecycle.FireRefines | console/tcp_protobufserver.cpp:116-165 | every locked block moves a row along Pending, Assigned, Done, and only an Assigned row goes back to Pending |
| Lifecycle.DoneForever | console/tcp_protobufserver.cpp:116-165 | under any schedule an owned row has no result, and a row with a result is frozen, whatever its code |
| Lifecycle.FinishIsFinal | console/tcp_protobufserver.cpp:162-165 | a result makes its row final exactly when its code is not the initial one; otherwise the row is eligible again |
| Lifecycle.SendIsEvents | console/tcp_protobufserver.cpp:105-149 | handing out a task is at most one single-row event |
| Lifecycle.ApplyIsEvents | console/tcp_protobufserver.cpp:151-186 | booking a result is at most one single-row event |
| Lifecycle.ReleaseIsEvents | console/tcp_protobufserver.cpp:44-62 | a disconnect is one event for each row of the client |
| Server.TcpProtobufServer.SendTasksToSlave | console/tcp_protobufserver.cpp:105-149 | with credit, the first eligible row, and no other, becomes the client's, one packet carries it and one unit of credit is spent; else nothing changes |
| Server.TcpProtobufServer.DoWork | console/tcp_protobufserver.cpp:33-42 | rows, credits and everything sent after a pass are those of the pass that `TaskTable.PassIsMatching` is about |
| Server.TcpProtobufServer.OnClientDisconnected | console/tcp_protobufserver.cpp:44-62 | exactly the client's rows lose their owner |
| Server.TcpProtobufServer.ApplyResultFromSlave | console/tcp_protobufserver.cpp:151-186 | result, exit code or save status, address and release go to the first row the client owns under that id; false and no change if there is none |
| Server.TcpProtobufServer.OnRecvFromNode | console/tcp_protobufserver.cpp:64-98 | every packet before the first that does not parse takes effect in order, credit before result; true exactly if all parse |
| Server.ReceiveSnoc | console/tcp_protobufserver.cpp:68-95 | reading one more packet after a batch is reading the longer batch |
| ProcessObject.ReportedCode | daemon/Process.cpp:91-137 | after "not running", the second query yields one of the two final codes exactly unless the first query failed on a living process; exited exactly if a started process answers another code than 259, which then is the exit code, and 0 otherwise |
| ProcessObject.ExitCode259IsNeverSeen | daemon/Process.cpp:91-137 | a process counts as running exactly if it started and the query answers 259 |
| DaemonClient.ReportedUnless259 | daemon/tcp_protobufclient.cpp:27-95 | a started task whose first query answers a code is, by a pass that reaches it, reported or broken off at exactly when the code is not 259; otherwise no packet carries it and the list keeps it (ids in a list being distinct, as `Ownership.WhereTasksAre` shows) |
| DaemonClient.CreditIsDifference | daemon/tcp_protobufclient.cpp:44 | the wrap of the unsigned difference is undone by the signed field exactly when the true difference fits it |
| DaemonClient.WalkIsPass | daemon/tcp_protobufclient.cpp:27-95 | walking by index over the list that shrinks under it reports and keeps what a filter of the original list does, in order, also when it breaks off |
| DaemonClient.PassConserves | daemon/tcp_protobufclient.cpp:66-94 | of every id, reported plus kept is what there was, and one more exactly for the task of an AbortOnError exit |
| DaemonClient.ReportSays | daemon/tcp_protobufclient.cpp:37-85 | a task the pass comes to, whose process is not alive and whose report is taken, is reported with its id, its output and, if it exited with c, the exit code c, else with 0 as not started or running; the pass ends with it exactly when it is to abort on an error and its report is one |
| DaemonClient.PassClosesExactly | daemon/tcp_protobufclient.cpp:31-85 | a pass breaks off exactly when it meets a task that is not alive and whose report is not taken, or that is to abort and has not exited with 0, and at the first such task |
| DaemonClient.IntakeLaunches | daemon/tcp_protobufclient.cpp:111-216 | a batch adds one task and launches one process, with the paths replaced, for each task it brings of a known project whose source file is saved, in order, up to the packet that ends the connection, and for no other |
| DaemonClient.PassCounts | daemon/tcp_protobufclient.cpp:27-95 | sent plus kept is the initial number, plus one when the pass breaks off after sending |
| DaemonClient.TcpProtobufClient.VisitTask | daemon/tcp_protobufclient.cpp:29-94 | one visit steps over a running task, reports and erases a finished one so that the index, through the wrap at zero, points at the next, or breaks off |
| DaemonClient.TcpProtobufClient.DoWork | daemon/tcp_protobufclient.cpp:23-96 | the loop's list, packets and connection are those of the filter |
| DaemonClient.TcpProtobufClient.OnConnect | daemon/tcp_protobufclient.cpp:98-109 | one packet without a result follows what is queued; its credit is the free cores exactly when they fit the signed field, and negative exactly when not |
| DaemonClient.TcpProtobufClient.OnRecvFromNode | daemon/tcp_protobufclient.cpp:111-149 | tasks are taken in order up to the packet that ends the connection |
| DaemonClient.TcpProtobufClient.RunTaskProcess | daemon/tcp_protobufclient.cpp:151-216 | unknown project or failed save: nothing is added; else one task with its relocated paths and one launch |
| Ownership.StepKeepsBalance | console/tcp_protobufserver.cpp:44-186 | every step of either end keeps, for each connection and id, the table's rows equal to the places the task is in |
| Ownership.RunKeepsInv | console/tcp_protobufserver.cpp:44-186 | every run keeps the whole invariant: unique ids, sound rows, existing owners, balance, books |
| Ownership.WhereTasksAre | console/tcp_protobufserver.cpp:44-186 | in every reachable state the rows of a live connection are exactly the tasks going to it, at it, or coming back, each in one place; no row points at a removed client |
| Ownership.NoTaskTwice | console/tcp_protobufserver.cpp:116-139 | no task is in the hands of two connections |
| Ownership.EveryResultIsAccepted | console/tcp_protobufserver.cpp:151-186 | exactly one row waits for every queued result, also after the daemon closed, and the "wrong packet" path was never taken |
| Ownership.ConservationLaw | console/tcp_protobufserver.cpp:48-165 | sent is applied plus released plus owned; twice the eligible plus the owned, the sent and the applied rows is twice the table plus the released; applied reaches the table's size exactly when all rows are done |
| Finality.StepIsSchedule | console/tcp_protobufserver.cpp:33-186 | every protocol step acts on the table as a schedule of single-row events |
| Finality.DoneIsFinal | console/tcp_protobufserver.cpp:116-165 | in every run, owner, result and exit code of a done row never change |
| Finality.ReceivedLands | console/tcp_protobufserver.cpp:162-176 | reading a result puts its code and its exit code or save status on the row with its id |
| Finality.SentLands | daemon/tcp_protobufclient.cpp:66-85 | a result in a queue is in the table after any run, however interleaved, that reads that far and does not disconnect the client |
| Finality.ExitCodeArrives | daemon/tcp_protobufclient.cpp:41-66 | from the process to the table: the code with which a process exited is on its task's row after any run, however interleaved, that reads the report and does not disconnect the daemon; for 0, the status of saving the output |
| Finality.DrainLands | daemon/tcp_protobufclient.cpp:66-85 | in particular once the server has drained the queue, also for the report before an AbortOnError exit |
| Verdicts.RunKeepsHonest | daemon/Process.cpp:91-137 | without that race, every queued code and every code in the table is one of the two final ones, in every run |
| Verdicts.EveryTaskHasAVerdict | console/console.cpp:392-412 | then the results booked are the whole table exactly when errors and successes add up to it |
| Verdicts.FinishedScanAccountsForAll | console/console.cpp:373-441 | a scan over any run of the protocol without that race, wherever the server is in it at each lock, if it ends finished has seen the table the run ends with, and errors plus successes are all of it |
| Verdicts.RacesAreMissing | console/console.cpp:405-421 | in any run: errors, successes and the raced reports the server has read add up to the results booked |
| Verdicts.FinishedScanMissesRaces | console/console.cpp:373-441 | a scan over any run of the protocol that ends finished: errors, successes and the raced reports read add up to the table, so the totals are all of it exactly when no report that was read raced |
| Verdicts.RaceIsNotCounted | daemon/Process.cpp:116-137 | with the race, a living task is reported and its row is neither an error nor a success |
| Credit.CreditDiscipline | console/tcp_protobufserver.cpp:84-144 | in every run, credit plus what was sent since the last report is that report, and sends never exceed it |
| Credit.QuietCredit | daemon/tcp_protobufclient.cpp:44 | in every run, whatever the other daemons: the credit of an idle connection whose daemon keeps its cores is these cores before its first result and one less after |
| Credit.QuietProgress | console/tcp_protobufserver.cpp:105-149 | the next turn of such a connection takes the first eligible task exactly with two cores, or one before the first result |
| Credit.TasksFit | daemon/tcp_protobufclient.cpp:213 | a daemon never has more tasks than the table has rows |
| Commitment.TwoCoresAreBounded | daemon/tcp_protobufclient.cpp:44 | for a daemon that keeps at most two cores, tasks coming and there never exceed the cores, whatever the delays and the other daemons |
| Commitment.OneCoreGetsOneTask | daemon/tcp_protobufclient.cpp:44 | a daemon that keeps one core holds at most one task, and none, without credit, for ever after its first result, whatever the delays |
| Commitment.ThreeCoresAreUnbounded | daemon/tcp_protobufclient.cpp:44 | with f of three or more, there is a run after which a daemon holds f + k(f-2) tasks, for every k |
| Commitment.BoundedExactlyUpToTwo | console/tcp_protobufserver.cpp:82-89 | the cores of a daemon bound what it holds if they are at most two; otherwise no number does |
| Pacing.StuckForever | console/tcp_protobufserver.cpp:107-110 | once all connections are idle without credit, no run without a new client finishes anything |
| Pacing.OneCoreStalls | daemon/tcp_protobufclient.cpp:44 | from any table of two tasks or more, a daemon with one core leads into such a state |
| Pacing.LockStepBound | console/tcp_protobufserver.cpp:84-144 | on a connection in lock-step, whatever the others do, credit plus outstanding tasks is the daemon's cores, less one after the first result, so outstanding never exceeds the cores |
| Effort.StepPays | console/tcp_protobufserver.cpp:33-186 | every step that gets something done uses up a unit of what is left to do and to move; only new connections, close requests and freed rows add to it |
| Effort.EveryRunIsShort | console/tcp_protobufserver.cpp:33-186 | a run from a fresh table has at most 8 productive steps a row, 3 a connect or close request, 4 a freed row, under any scheduler |
| Effort.QuiescentMeansDone | console/tcp_protobufserver.cpp:105-149 | when nothing productive is possible, and some working daemon keeps two cores or more, every row that is not done is owned by a daemon that has closed |
| Knowledge.RunKeepsOrigin | daemon/tcp_protobufclient.cpp:168-174 | in every run what goes down is in the table, and what a daemon has and reports is of its own projects |
| Knowledge.UnknownProjectStalls | daemon/tcp_protobufclient.cpp:168-174 | a task whose project none of the daemons was started with is never done, in any run |
| Obstacles.HopelessStays | daemon/tcp_protobufclient.cpp:80-85 | when every connection is blocked, what is not ahead of an obstacle is not done in any continuation |
| Progress.FinishSaved | console/tcp_protobufserver.cpp:151-186 | what is ahead of every obstacle can be finished, dropping nobody who has not closed |
| Obstacles.BeforeStep | console/tcp_protobufserver.cpp:105-149 | no step but a connect removes an obstacle; a task gets ahead of one only by being handed out, as the first eligible, over a connection without any, to a daemon that knows its project |
| Staffing.StaffedCanBeFinished | console/tcp_protobufserver.cpp:33-186 | from every reachable state in which each task that is left is ahead of the obstacles or can be given to someone of a team that keeps its cores, some continuation finishes every row, with no daemon coming in and none dropped that has not closed |
| Staffing.FinishableExactly | console/tcp_protobufserver.cpp:33-186 | for daemons that keep their cores, however many, whatever projects each knows: finishable exactly when each task that is left is ahead of the obstacles or can be given to someone, a single core being able to take one |
| Staffing.ServedExactly | console/tcp_protobufserver.cpp:33-186 | with two cores or more everywhere: exactly when for each task that is left some connection saves it, or has no obstacle and a daemon that knows its project |
| Staffing.EveryTaskCanBeFinished | console/tcp_protobufserver.cpp:105-149 | in particular if one connection has no obstacle and its daemon keeps two cores or more and knows the projects of all that is left, whatever the others |
| Staffing.AlikeExactly | daemon/tcp_protobufclient.cpp:168-174 | for daemons configured alike: exactly when the projects of what is left are known and there is a connection without an obstacle or all that is left is ahead of the obstacles |
| Staffing.LoneQuietExactly | daemon/tcp_protobufclient.cpp:168-174 | with one idle connection of two cores or more: exactly when its daemon knows the projects of what is left |
| Staffing.LoneCoreExactly | daemon/tcp_protobufclient.cpp:44 | with one idle connection of one core: exactly when nothing is left, or a single task, whose project its daemon knows, and it has not reported any |
| Progress.BreakOffIsNotEnough | daemon/tcp_protobufclient.cpp:80-85 | what is behind a task the daemon has to break off at is not done over the only connection |
| Progress.OpenIsNotEnough | daemon/tcp_protobufclient.cpp:138-145 | an open connection that has been told to close does not do: from a reachable such state the build cannot be finished |
| Console.ScanUntilFinished | console/console.cpp:373-441 | whatever the server does between two locks: a scan that ends finished has seen every task done, counted each once and under its address, and its totals are the whole table exactly when every code is one of the two; it gives up only after all its passes, and never if the tasks were done a whole pass before |
| Console.ScanPass | console/console.cpp:385-422 | a pass finds all finished only if every row is done and counted, and fails to only if some row was not done when it began |
| Console.CountRow | console/console.cpp:405-421 | counting a done row clears its mark and keeps the map equal to what has been counted, per address and in total |
| Console.Recount | console/console.cpp:424-435 | the totals are the sums over the map, in whatever order it is walked |
| Console.FireShadows | console/console.cpp:394-422 | clearing marks does not influence the server: scanned and unscanned table go on alike |
| Console.AccountedOnFields | console/console.cpp:405-435 | successes are the rows that exited with 0, errors those not started or exited with another code, each counted for the address its result came from |
| Console.TwoCodes | console/console.cpp:405-421 | errors plus successes never exceed the rows, and equal them exactly when all codes are the two |
| Text.SubstitutionIsSimultaneous | console/console.h:34-51 | the successive replacements of a template are one simultaneous pass over its tokens; unknown tokens stay |
| Text.SubstitutionResolves | console/console.h:34-51 | for values that contain tags themselves: one pass over the template, each token becoming its value after the later replacements |
| Text.SimultaneousExactly | console/console.h:34-51 | the successive replacements are the simultaneous one for every template exactly when no value is changed by the later ones |
| Text.SimultaneousWithoutLaterTags | console/console.h:34-51 | they are, when no value mentions a variable that is replaced later |
| Text.TagBecomesItsValue | console/console.h:38-48 | a single tag becomes its value with the later replacements made in it |
| Text.ValuesAreExpandedAgain | console/console.h:38-48 | for instance a value that is itself a tag bound later is expanded again |
| Text.OrderIsIrrelevant | console/console.h:38-48 | any order of the replacements that binds the same names gives the same text |
| Text.Relocation | console/console.cpp:133-136 | de-localising and then localising is replacing the one directory by the other |
| Text.NoTagAtSeam | console/console.cpp:133-136 | no tag forms across the seam of a replacement |
| Text.RelocationRoundTrip | daemon/tcp_protobufclient.cpp:177-182 | to the same directory it gives the text back |
| Paths.ExpandLeavesNoTag | console/console.h:34-51 | an expanded template has a tag exactly when it mentioned it and nothing is bound to it |
| Paths.TableBinds | console/console.h:34-51 | the nine names and what each is bound to; no other is |
| Paths.TagsAreFields | console/console.h:38-48 | each of the nine tags, by itself, becomes its field |
| Paths.JobTags | console/console.cpp:122-127 | `$(sourcefile)` becomes the expanded source, `$(sourcefilename)` the raw name of that, `$(outputfile)` the output file expanded with these two known |
| Paths.OdirStays | console/console.h:38-48 | there is no replacement for `$(odir)`: the tag is there afterwards exactly when it was before |
| Paths.LaunchIsRelocated | daemon/tcp_protobufclient.cpp:176-182 | from template to launch: command line and working directory have the console's directory replaced by the daemon's, the application keeps the console's |
| Paths.ApplicationIsRelocatedExactly | console/console.cpp:142 | the launched application is the relocated one exactly when it does not contain the console's directory, or the directories are equal |
| Paths.ApplicationIsNotRelocated | console/console.cpp:142 | for instance an application that is the project directory is launched from the console's |
| Paths.FilesAreRelocated | daemon/tcp_protobufclient.cpp:181-182 | so have the task's source and output file, by the daemon's work path |
| Loader.LoadConfig | console/console.cpp:164-219 | one row for each source file of each task element of each project element the console knows, all of them and in document order; fresh, numbered from one, its message sent under that project's name and made with its directory; it throws exactly when the sources of some such element cannot be listed, and fails on an empty table |
| Loader.ConfigListed | console/console.cpp:182-206 | the jobs are in order those of the places (project element, task element, source file) of the build set, none left out |
| Loader.SourcesAre | console/console.cpp:82-118 | an element without a star stands for its source file; with one, for the entries of the directory that end in the mask, both case-folded, in listing order; it cannot be listed exactly without a first character to cut, without a directory or with an entry shorter than the mask |
| Loader.SlashesTurn | console/console.cpp:76-80 | every slash becomes a backslash and nothing else changes |
| Loader.TaskGenerator | console/console.cpp:65-162 | an element appends its jobs with their messages, numbered on from the table's length; it throws exactly when its sources cannot be listed |
| Loader.Describe | console/console.cpp:120-145 | steps 1 to 4, assignment by assignment, build the message the specification gives the job |
| Loader.ScanDirectory | console/console.cpp:93-108 | the entries with the mask's suffix, in listing order, each with the next number; it throws exactly when an entry is shorter than the mask |
| Loader.ShortNamesThrow | console/console.cpp:97 | a scan throws exactly when it meets an entry shorter than the mask |
| Wildcards.MaskFollowsStar | console/console.cpp:87-91 | the mask is what follows a star exactly when that star follows the last backslash |
| Wildcards.WildcardIsRight | console/console.cpp:82-108 | for a file's name with any number of stars, the scan of every directory selects the matching files, in order, exactly when its first character is its only star and a backslash stands before it |
| Wildcards.WildcardMisses | console/console.cpp:88-97 | for instance `d\a*.c` passes over `d\ab.c`, and `d\*.c*` over `d\a.cc` |
| Loader.NumbersAreUnique | console/console.cpp:101-111 | the ids of a loaded table tell the rows apart exactly up to 2^32 jobs, and below that row k has id k + 1 |
| Dispatch.LoadedTableIsInitial | console/console.h:83-91 | a loaded table is one that runs start from, exactly up to 2^32 jobs |
| UdpDaemon.UdpDaemonServer.DoWork | daemon/udp_daemonserver.cpp:20-66 | from any state, status, client and history after a tick are the reference step's |
| UdpDaemon.UdpDaemonServer.OnRecvFromNode | daemon/udp_daemonserver.cpp:68-125 | a batch opens at most one client, for its first packet that passes all checks, and only when idle |
| UdpDaemon.AcceptableIsFirst | daemon/udp_daemonserver.cpp:85-115 | that packet passes the four checks and none before it does; there is none exactly if each fails one of them |
| UdpDaemon.OneClientAtATime | daemon/udp_daemonserver.cpp:24-65 | in every run: idle exactly without a client, and creations and deletions alternate |
| UdpDaemon.ClientLifetime | daemon/udp_daemonserver.cpp:20-125 | a client appears exactly for an acceptable packet when idle, a live one is never replaced and goes exactly when it is neither connecting nor connected, twice asked; working means that it has been found connected; the repair of a missing client is dead |
| WorkTime.Projects.LoadWorkTime | common/project.cpp:99-148 | settings are taken in order up to the first malformed time, percentages clamped |
| WorkTime.ClampIsNearest | common/project.cpp:138-144 | a percentage that is one stays, any other becomes the nearest |
| WorkTime.Projects.GetWorkPercent | common/project.cpp:84-97 | which percentage holds is cyclic membership of the minute in the window |
| WorkTime.WindowIsCyclic | common/project.cpp:91-96 | for any day length, the two-branch test is cyclic membership, and equal ends are always inside |
| WorkTime.Projects.GetFreeCore | common/project.cpp:72-82 | never above the usable threads, which are all but three and at least one, and the whole number nearest to the configured share of them |
| WorkTime.OfferedIsMonotone | common/project.cpp:72-82 | monotone in percentage and threads, all at full share, none exactly below half a core |
| CallOnce.CalledOnceBeforeAnyReturn | protocol/include/absl/base/call_once.h:139-190 | for any threads and interleaving: one thread at most enters the callable, and no call returns before it has completed |
| CallOnce.NoLostWakeup | protocol/include/absl/base/call_once.h:166-188 | a sleeper implies that the word says so or a wake-all is due, and that the thread in charge can move |
| CallOnce.EveryRunIsShort | protocol/include/absl/base/call_once.h:139-220 | n calls take at most 16n + 12 atomic steps under any scheduler, and two more for each spurious wakeup |
| CallOnce.QuietMeansReturned | protocol/include/absl/base/call_once.h:139-220 | nothing can move exactly when every call has returned, and then the callable ran once |
| HashChecker.Verify | protocol/include/absl/hash/hash_testing.h:184-276 | success exactly when no expansion fails, two values differ, and every pair agrees: equal values expand alike, unequal ones flatten to texts neither of which ends in the other; each failure names values that show it |
| HashChecker.EndsWithExactly | protocol/include/absl/hash/internal/spy_hash_state.h:119-120 | one text ends in another exactly if it continues some text with it |
| HashChecker.JoinedPieces | protocol/include/absl/hash/internal/spy_hash_state.h:114-117 | the flattened expansion is the pieces one behind the other |
| HashChecker.SamePair | protocol/include/absl/hash/hash_testing.h:234-273 | comparing first members across classes decides every pair |
| HashChecker.Gather | protocol/include/absl/hash/hash_testing.h:203-224 | the classes are the partition of the values; the first failing expansion ends it |
| HashChecker.CompareAll | protocol/include/absl/hash/hash_testing.h:234-275 | the comparisons succeed only if all pairs agree, and every failure is justified |
| HashChecker.PiecesAreFinerThanBytes | protocol/include/absl/hash/internal/spy_hash_state.h:97-122 | cutting any piece in two is seen inside a class and not across classes |

## Left out

- Sockets, multicast sending, keep-alive timers, thread start and stop: connects, disconnects and deliveries are steps of the model instead.
- Wire formats: protobuf, CRC-32 and the layout of the job request; a packet is a value, the crc check a Boolean.
- Foreign calls: starting processes, files, listing directories, parsing XML and times; their answers are parameters.
- User interface: command line, logging, terminal output, tray window.
- Console.ScanUntilFinished: the table, which another thread changes, is handed through the scan as a value, each lock being one point of the schedule; the timer that ends the scan when no daemon responds is a bound on the number of passes, chosen freely; of that exit only the table's state and the unfinished task are claimed.
- Server.TcpProtobufServer.SendTasksToSlave: a message is a value with all its required fields, which loading sets (console/console.h:59, console/console.cpp:138-145) and the sending completes with the input data, so the exit for an uninitialised one at lines 133-137 is not there; a source file that cannot be loaded is only logged, and loading does not influence the dispatch.
- WorkTime.Projects.GetFreeCore: arithmetic is over the reals; the rounding of `float` is not modelled, nor is the wall clock, whose minute is a parameter.
- Wildcards.WildcardIsRight: for stars in a directory's name only, just the mask is characterised, by `Wildcards.MaskFollowsStar`; which directory the iterator then opens depends on the file system.
- HashChecker.Verify: an expansion is a function of the value, so the branch for expansions that differ between two calls does not occur; `eq` is taken to be an equivalence, as the checker itself assumes.
- CallOnce.CalledOnceBeforeAnyReturn: weaker memory orders than sequential consistency are not modelled, nor is the scheduling guard.
- Text.Relocation: case folding is assumed done; what Windows paths mean to the file system is not modelled.
- Staffing.FinishableExactly: says from where some continuation finishes the build, not that every scheduler does: the server may give a task to a daemon that closes on it.
- The other vendored headers: mostly wrappers over internal headers.
