# Verified models of the course projects

A Dafny 4.11 model of the concurrent and stateful programs of this repository, with proofs of what
they are for. `dafny verify dfyconfig.toml` checks all of it.

What the source updates in place is a class or an array here, proved against functions on values; the
theorems over whole runs are about those functions. What the kernel, the network or the scheduler
decides is an argument: any count a call may return, any error, any interleaving.

- **bus/** - the half-duplex bus scheduler. `BusTypes` has the shared state and what each section of
  code between taking and giving back `mutex` makes of it; `BusScheduler` is the code itself, with its
  semaphores and counters; `BusProtocol` lets any number of tasks (up to the 200 that the source
  asserts) run it in any interleaving. `BusBoarding` tells every step by the tasks, without the code's own
  tests. What then holds, and exactly when, is in `BusOrder` (half-duplex),
  `BusPriority` (rule 3), `BusProgress` (wake-ups and the end of runs) and `BusTokens` (tokens against
  sleepers). `BusHandOff` adds one guard - while a woken task is on its way, no newcomer
  and no releaser takes `mutex` - under which the bus is half-duplex, loses no wake-up and always
  finishes. `BusCounterexamples` reaches the states that show the guard is needed.
- **echo/** - the TCP echo programs. `EchoTypes` has both ends of a connection as values; `EchoServer`,
  `SelectServer`, `EchoClient` and `EchoEmulator` are the iterative server, the multiplexing server's
  select loop, the client connection and the multi-client event loop, in place. `EchoSystem` composes a
  client, two byte streams and a server connection; `EchoCapacity` bounds the streams. `SelectRounds`,
  `SelectRefinement` and `SelectLeak` are about runs of the multiplexing server, `EmulatorRuns` about
  runs of the emulator, and `EmulatorRefinement` projects each of them to a run of `EchoSystem` for every client.
- **timer/** - the sleep queue (`SleepQueue`, and whole runs in `SleepRuns`, against the countdown scan
  that it replaced), the calibration of the delay loop, and the delay arithmetic.
- **shell/** - the command parser. `ShellSyntax` is the tokenizer and parser on values, `ShellGrammar`
  its language, `ShellRoundTrip` printing; `ShellLexing` has the tokens of a line without the
  tokenizer; `ShellPools`, `ShellReading`, `ShellDangling` and `ShellLimits` are about the fixed pools, what is
  read and written, and the lines that earlier ones decide.
  `ShellParser` is the code itself: characters, pointers and cells in three arrays (`ShellMemory`), and
  positions in the line (`ShellScan`).
- **pool/** - the goroutines of the HTTP server: acceptor, N workers, an unbuffered channel and Stop.

## What turned out differently

Where a promise fails, the code is modelled as it is, a lemma reaches a failing state, and another says
exactly when the promise holds.

- *Half-duplex.* A woken task boards without a test of the direction (batch-scheduler.c:270-273), and
  get_slot does not consult `waiting_task` (`HalfDuplexExactly`, `HalfDuplexCanFail`).
- *Progress.* A woken task can find `bus_slots` at zero with `mutex` held (`DeadlockCanHappen`), and a
  release can wake nobody because `waiting_task` counts tokens that nobody can take any more
  (`WakeUpCanBeLost`). `NoLostWakeUpExactly` and `AllReleasedExactly` say when a wake-up is lost and which
  runs release every task.
- *Tokens.* Class counters drop only when a woken task regains `mutex`, so a sleeper can be signalled again
  (`TokenCanLeak`). `TokensFitExactly` and `CleanEndExactly` say when a semaphore gets more tokens than it
  has sleepers, and when some are left at the end.
- *Rule 3.* The comment at batch-scheduler.c:218-219 says that a normal task should not get the bus if
  priority tasks are waiting. At entry the code looks at its own direction only, and when a woken task
  boards it does not look at all (`RuleThreeExactly`, `NormalCanPassPriority`, `WokenCanPassPriority`).
- *Calibration.* The comment at timer.c:67 says 8 bits; the loop tries 9. Each is tried against
  `high_bit` alone, so the estimate can exceed a tick, by less than a third (`CalibrationBounds`,
  `NotTooManyExactly`, `EstimateCanExceedTick`).
- *Sleep queue against scan.* A sleep of zero or less ends at the next interrupt in the queue and never
  in the scan; a tick between reading the clock and entering the list shortens a sleep in the queue only
  (`AgreementExactly`, `EmptySleepDisagrees`, `LateSleepDisagrees`). After either, the thread can sleep again
  in the queue while the scan still has it blocked (`SleepsAgain`, `SleepsAgainLate`).
- *Echo.* The client reads nothing before it has sent its whole message, so a message that the channels
  cannot hold blocks both sides (`NeverStuckExactly`, `LongMessageGetsStuck`). An empty message never
  comes back (`EmptyMessageNeverFinishes`).
- *Descriptors.* server-io-multiplexing.cpp does not close a socket that it cannot make non-blocking; its
  skeleton does (`ConservedExactly`, `DescriptorCanLeak`).
- *Parser.* A redirection sign at the end of the line takes for its file what an earlier line has left in
  `cbuf`, so the same line is accepted or not depending on that line (`EarlierLinesDecideExactly`,
  `LettersDecide`).
- *HTTP server.* A malformed request is never counted out (`CountDriftsByMalformed`, `CountCanDrift`),
  and Stop closes the channel while the acceptor may still be sending on it (`GracefulExactly`,
  `StopCanPanic`).

## Model

| member | source | states |
|---|---|---|
| `BusScheduler.Scheduler.constructor` | operating-system/OS-lab3/batch-scheduler.c:99-119 | the bus starts with three free slots, `mutex` free, no direction and all counters at zero |
| `BusScheduler.Scheduler.GetSlot` | operating-system/OS-lab3/batch-scheduler.c:225-274 | the newcomer boards if and only if fewer than three are aboard, the direction is none or its own, and it is a priority task or no priority task of its direction is counted; then it is counted aboard and turns the bus its way, otherwise only its class counter goes up |
| `BusScheduler.Scheduler.TakeSlot` | operating-system/OS-lab3/batch-scheduler.c:270-274 | one slot goes, one more task is aboard, the direction becomes the task's whatever it was, and `mutex` is given back |
| `BusScheduler.Scheduler.ResumeWaiting` | operating-system/OS-lab3/batch-scheduler.c:329-335 | a woken task counts itself out of its class and out of `waiting_task`; with a slot it boards and turns the bus its way, without any test of the direction; with none it stops with `mutex` held and the direction as it was |
| `BusScheduler.Scheduler.WakeupWaitingTask` | operating-system/OS-lab3/batch-scheduler.c:337-347 | the signalling loop gives the class as many tokens as the mixed-sign MIN says, and raises `waiting_task` with each |
| `BusScheduler.Scheduler.ReleaseSlot` | operating-system/OS-lab3/batch-scheduler.c:288-318 | the whole state after release_slot: leave, wake senders, wake receivers, in that order |
| `BusProtocol.ToWakeMeaning` | operating-system/OS-lab3/batch-scheduler.c:39 | MIN of an int and an unsigned: a negative number of empty slots selects the waiting count, not the slots |
| `BusProtocol.WakeTowardEffect` | operating-system/OS-lab3/batch-scheduler.c:297-315 | one half of release_slot only adds tokens, each with its unit of `waiting_task`, and turns the bus only if it woke somebody |
| `BusProtocol.WakeTowardExact` | operating-system/OS-lab3/batch-scheduler.c:297-315 | as long as the tasks aboard and on their way fit, exactly the free slots are handed out, priority first, normal only when the other side has no priority task |
| `BusProtocol.AccountingAlways` | operating-system/OS-lab3/batch-scheduler.c:225-347 | in every interleaving of any number of tasks up to 200: slots and tasks aboard make three, `task_on_bus` is the number aboard, each class counter is the number asleep or woken in that class, `waiting_task` is tokens plus woken tasks, a set direction means that somebody is aboard or `waiting_task` is positive, and with somebody aboard it is set |
| `BusProtocol.StepKeepsAccounting` | operating-system/OS-lab3/batch-scheduler.c:225-347 | each section that holds `mutex`, and each token taken, keeps that accounting |
| `BusProtocol.NeverUnblocked` | operating-system/OS-lab3/batch-scheduler.c:270 | a task that waits for `bus_slots` with `mutex` held never gets a slot |
| `BusBoarding.OnlyTheActorMoves` | operating-system/OS-lab3/batch-scheduler.c:225-347 | a step changes no task but the one that takes it, and no class; a token puts a sleeper on its way, a release ends a task |
| `BusBoarding.EntersExactly` | operating-system/OS-lab3/batch-scheduler.c:225-242 | in every run, by the tasks: a newcomer boards if and only if fewer than three are aboard, the bus is idle or carries its direction, and no priority task of its direction is asleep or woken unless it is one itself; otherwise it sleeps |
| `BusBoarding.ResumesExactly` | operating-system/OS-lab3/batch-scheduler.c:329-335 | a woken task boards if and only if fewer than three are aboard, and otherwise keeps `mutex` |
| `BusBoarding.DirectionExactly` | operating-system/OS-lab3/batch-scheduler.c:270-316 | the direction after every step of every run: that of whoever boards; after a release that of the tasks it wakes, none if nobody is left, and the old one otherwise; and no other step touches it |
| `BusBoarding.BoardingTurnsTheBus` | operating-system/OS-lab3/batch-scheduler.c:273 | whenever a task gets on the bus, the bus has its direction afterwards |
| `BusBoarding.TokensExactly` | operating-system/OS-lab3/batch-scheduler.c:297-347 | only releases give tokens, as many to each class as the counters say, and only sleepers take them, one each |
| `BusOrder.PriorityWokenFirst` | operating-system/OS-lab3/batch-scheduler.c:297-315 | in every interleaving, also with more tasks on their way than slots: when release_slot signals a normal waiter, every sleeping priority task of that direction has a token and no priority task of the other direction is registered |
| `BusOrder.NoPriorityLeftBehind` | operating-system/OS-lab3/batch-scheduler.c:233-242 | a normal task that boards at entry leaves no priority task of its own direction asleep or woken |
| `BusPriority.PassesPriorityExactly` | operating-system/OS-lab3/batch-scheduler.c:216-274 | rule 3 as the comment words it, for a normal task that boards at entry or woken: it passes a waiting priority task if and only if the priority counters say so - at entry one of the other direction, woken one of any direction is registered |
| `BusPriority.RuleThreeExactly` | operating-system/OS-lab3/batch-scheduler.c:216-274 | rule 3 over whole runs: no normal task ever gets on the bus past a waiting priority task if and only if no boarding step finds those counters set |
| `BusPriority.StepKeepsPriority` | operating-system/OS-lab3/batch-scheduler.c:297-315 | under the hand-off schedule: while a normal task of a direction has a token or is woken, every sleeping priority task of it has a token and none of the other direction is registered |
| `BusPriority.HandOffRuleThree` | operating-system/OS-lab3/batch-scheduler.c:270-274 | so a woken normal task passes no priority task but those of its own direction that are on their way themselves |
| `BusOrder.HalfDuplexExactly` | operating-system/OS-lab3/batch-scheduler.c:212-224 | rule 2 of get_slot over whole runs: the bus is half-duplex throughout if and only if no woken task regains `mutex` while the bus carries the other direction |
| `BusOrder.BlockedForever` | operating-system/OS-lab3/batch-scheduler.c:270 | once a task has stopped at `bus_slots` with `mutex` held, no task ever boards or leaves again |
| `BusProgress.LastReleased` | operating-system/OS-lab3/batch-scheduler.c:288-318 | when the last task aboard leaves, somebody is woken or on the way, or nobody waits, if and only if it is not the case that waiting_task is three, all of it tokens that no registered class can take, and somebody is registered |
| `BusProgress.NoLostWakeUpExactly` | operating-system/OS-lab3/batch-scheduler.c:225-347 | over whole runs of any number of tasks: a waiting task always has somebody aboard, somebody woken, or a sleeper with a token of its class, if and only if no release is of that kind |
| `BusProgress.MutexFreeExactly` | operating-system/OS-lab3/batch-scheduler.c:270 | `mutex` is free between sections if and only if no woken task has found `bus_slots` at zero |
| `BusProgress.LiveMeansProgress` | operating-system/OS-lab3/batch-scheduler.c:225-347 | with `mutex` free and no wake-up lost, some step is possible until all tasks are done |
| `BusProgress.AllReleasedExactly` | operating-system/OS-lab3/batch-scheduler.c:197-206 | a run that cannot go on has released every task if and only if no woken task has found `bus_slots` at zero and the latest release has not lost a wake-up |
| `BusTokens.ReleaseSignals` | operating-system/OS-lab3/batch-scheduler.c:297-347 | the tokens that a release hands out to each class, the waiters it counts and the direction it leaves, as functions of the counters before it, also with more tasks on their way than slots |
| `BusTokens.SleepersByCounters` | operating-system/OS-lab3/batch-scheduler.c:333-345 | the sleepers of a class are its registered tasks less its woken ones; all registered ones while waiting_task counts tokens only |
| `BusTokens.TokensFitExactly` | operating-system/OS-lab3/batch-scheduler.c:337-347 | over whole runs no semaphore holds more tokens than it has sleepers if and only if each release signals each class at most as often as it has sleepers without a token |
| `BusTokens.ExcessIsSurplus` | operating-system/OS-lab3/batch-scheduler.c:320-347 | in every run and class, tokens less sleepers are signals less sleeps |
| `BusTokens.CleanEndExactly` | operating-system/OS-lab3/batch-scheduler.c:320-347 | with all tasks done the bus is as init_bus made it if and only if each class was signalled exactly as often as a task of it went to sleep |
| `BusHandOff.HandOffHalfDuplex` | operating-system/OS-lab3/batch-scheduler.c:212-347 | under the hand-off schedule, in every reachable state: tasks aboard and on their way share the bus direction, together they are at most three, no semaphore holds more tokens than it has sleepers |
| `BusHandOff.HandOffNoLostWakeUp` | operating-system/OS-lab3/batch-scheduler.c:225-347 | under the hand-off schedule a registered task always has a task aboard or on the way to wake it, and `bus_slots` is never down'ed at zero with `mutex` held |
| `BusHandOff.StepKeepsOrder` | operating-system/OS-lab3/batch-scheduler.c:225-347 | each permitted step keeps that invariant |
| `BusHandOff.SomethingPermitted` | operating-system/OS-lab3/batch-scheduler.c:225-347 | under the hand-off schedule there is no deadlock: while some task is not done, some step is permitted |
| `BusHandOff.HandOffRunsFinish` | operating-system/OS-lab3/batch-scheduler.c:197-206 | every hand-off run of N tasks has at most 4N steps, cannot go on exactly if all tasks are released, and then leaves the bus as init_bus made it |
| `BusCounterexamples.HalfDuplexCanFail` | operating-system/OS-lab3/batch-scheduler.c:270-274 | without the hand-off two tasks in opposite directions get aboard |
| `BusCounterexamples.DeadlockCanHappen` | operating-system/OS-lab3/batch-scheduler.c:270 | without the hand-off all tasks can block with three of them aboard |
| `BusCounterexamples.TokenCanLeak` | operating-system/OS-lab3/batch-scheduler.c:333-345 | without the hand-off one sleeper can be signalled twice, and its token outlives all tasks |
| `BusCounterexamples.NormalCanPassPriority` | operating-system/OS-lab3/batch-scheduler.c:219-242 | rule 3 as the comment words it fails: a normal sender boards while a priority receiver waits |
| `BusCounterexamples.WokenCanPassPriority` | operating-system/OS-lab3/batch-scheduler.c:270-274 | and for woken tasks: a normal sender boards while a priority sender sleeps without a token |
| `BusCounterexamples.WakeUpCanBeLost` | operating-system/OS-lab3/batch-scheduler.c:288-347 | a reachable end with `mutex` free, the bus empty and idle, a receiver asleep, and no step left |
| `EchoSystem.StepKeepsInvariant` | computer-networking/lab-2/client-multi.cpp:384-537 | each send, receive or failure, of any size, keeps the invariant on what is sent, under way and received |
| `EchoSystem.NeverMismatch` | computer-networking/lab-2/client-multi.cpp:508-517 | client, channels and server composed: over every interleaving and every split of sends and receives the message-mismatch branch is unreachable |
| `EchoSystem.MismatchCounted` | computer-networking/lab-2/client-multi.cpp:504-517 | the mismatch branch is taken exactly by a receive that completes a copy other than the message |
| `EchoSystem.GoneForGood` | computer-networking/lab-2/client-multi.cpp:287-296 | a side that has failed, and a client that has ended, makes no further call |
| `EchoSystem.EchoedInOrder` | computer-networking/lab-2/client-multi.cpp:384-537 | in every world of every run, for any message and whatever has failed: what has come back and what is under way, in order, make up what was sent |
| `EchoSystem.EmptyAtBoundary` | computer-networking/lab-2/client-multi.cpp:498-536 | when a copy is complete, the channels and the server's buffer are empty, also after the server has closed |
| `EchoSystem.ExactCopies` | computer-networking/lab-2/client-multi.cpp:197-536 | a client that ends without an I/O error has sent and received exactly numRepeats copies (2^64 for the wrapped count of 0), of a message that is not empty |
| `EchoSystem.EmptyMessageNeverFinishes` | computer-networking/lab-2/client-multi.cpp:474-485 | with an empty message the client sends nothing and can only end by an error: it asks recv for zero bytes |
| `EchoCapacity.BoundedRunsFinish` | computer-networking/lab-2/client-multi.cpp:432-461 | over bounded channels that have room, a run moves at most four hops per byte and copy, and one that cannot go on has echoed every copy |
| `EchoCapacity.MovingLowersHops` | computer-networking/lab-3/server-io-multiplexing-skeleton.cpp:276-352 | every byte-moving step lowers the number of hops that are left |
| `EchoCapacity.NeverStuckExactly` | computer-networking/lab-2/client-multi.cpp:432-461 | the composition can never get stuck if and only if the message is at most one byte longer than the two channels together |
| `EchoCapacity.LongMessageGetsStuck` | computer-networking/lab-2/client-multi.cpp:432-461 | for every longer message there is a run that gets stuck, because the client reads nothing before it has sent everything |
| `EchoServer.ConnectionData.ProcessClientRecv` | computer-networking/lab-3/server-io-multiplexing.cpp:322-360 | the buffer holds exactly what arrived and the state turns to sending; on 0 or -1 nothing changes and the connection is given up |
| `EchoServer.ConnectionData.ProcessClientSend` | computer-networking/lab-3/server-io-multiplexing.cpp:363-398 | what was accepted leaves the front of the buffer, and only an empty buffer turns the state back; on -1 nothing changes |
| `EchoServer.ServeConnection` | computer-networking/lab-2/server-iterative.cpp:203-214 | the nested loops do what one fold over the kernel's answers does; they go on to the last answer, or give the connection up at an answer that ends it in the state it is in: end of input or an error while receiving, an error while sending |
| `EchoServer.ServeEndsExactly` | computer-networking/lab-2/server-iterative.cpp:203-214 | a connection is open at the end if and only if no answer ended it in the state that it was in; otherwise it was given up at the first that did, and not at a partial send |
| `EchoServer.ServeEchoes` | computer-networking/lab-2/server-iterative.cpp:203-214 | on one connection, what has come in is what has gone out and what is still in the buffer |
| `SelectServer.Server.Register` | computer-networking/lab-3/server-io-multiplexing-skeleton.cpp:170-193 | the two descriptor sets hold the listening socket and the sockets of the receiving, and of the sending, connections |
| `SelectServer.Server.AcceptClient` | computer-networking/lab-3/server-io-multiplexing-skeleton.cpp:204-226 | a new client goes to the end of the vector, or is closed if it cannot be made non-blocking; nothing else changes |
| `SelectServer.Server.ProcessAt` | computer-networking/lab-3/server-io-multiplexing-skeleton.cpp:230-264 | one turn at the iterator: serve the connection and step on, or close and erase it in place; it is erased if and only if the call that its state asks for was made and failed or found the end of input |
| `SelectServer.Server.ProcessClients` | computer-networking/lab-3/server-io-multiplexing-skeleton.cpp:229-265 | despite in-place erasure each connection is visited exactly once, in order; survivors keep their order, each removed socket is closed once |
| `SelectServer.Server.Round` | computer-networking/lab-3/server-io-multiplexing-skeleton.cpp:169-266 | a whole round of the select loop, in place, is the round on values that the theorems below are about |
| `SelectServer.Server.RoundOrSkip` | computer-networking/lab-3/server-io-multiplexing.cpp:173-312 | the same for the server itself, which leaves connections and closes as they are after a failed accept or a failed set_socket_nonblocking, and plays the whole round otherwise |
| `SelectRounds.SurvivorsConserve` | computer-networking/lab-3/server-io-multiplexing-skeleton.cpp:229-265 | no socket is lost and none appears in a pass: each stays or is closed, exactly once |
| `SelectRounds.SurvivorAt` | computer-networking/lab-3/server-io-multiplexing-skeleton.cpp:229-265 | a surviving connection comes behind exactly the earlier survivors, with one recv or send applied |
| `SelectRounds.NewcomerUntouched` | computer-networking/lab-3/server-io-multiplexing-skeleton.cpp:208-265 | the connection accepted in a round is not touched in it |
| `SelectRounds.RoundConserves` | computer-networking/lab-3/server-io-multiplexing-skeleton.cpp:169-266 | what was open or has been accepted is afterwards in the vector or closed, counted with multiplicity |
| `SelectRounds.SoundAlways` | computer-networking/lab-3/server-io-multiplexing-skeleton.cpp:169-266 | in every run the sockets in the vector are pairwise distinct and, with the listening socket, are exactly the open descriptors |
| `SelectRefinement.RoundOnOne` | computer-networking/lab-3/server-io-multiplexing-skeleton.cpp:229-265 | a round makes of one connection what its own answer makes of it, whatever happens to the others |
| `SelectRefinement.LeavesExactly` | computer-networking/lab-3/server-io-multiplexing-skeleton.cpp:229-265 | in every run a connection leaves the vector in exactly the round in which its socket is ready and its recv or send fails or finds the end of input |
| `SelectRefinement.JoinsExactly` | computer-networking/lab-3/server-io-multiplexing-skeleton.cpp:204-226 | new in the vector is exactly the non-blocking socket that accept returned, empty and receiving; one that could not be made non-blocking is closed in the same round |
| `SelectRefinement.RefinesIterative` | computer-networking/lab-2/server-iterative.cpp:206-214 | in any run over any connections, projecting on one connection gives the iterative server's loop on the same answers, up to and including the round that closes it |
| `SelectRefinement.MultiplexedEcho` | computer-networking/lab-3/server-io-multiplexing-skeleton.cpp:169-266 | so every connection is echoed to: input is output and buffer |
| `SelectLeak.ConservedExactly` | computer-networking/lab-3/server-io-multiplexing.cpp:226-266 | for the server itself the open descriptors are the listening socket and the vector's if and only if no accepted socket failed to become non-blocking |
| `SelectLeak.DescriptorCanLeak` | computer-networking/lab-3/server-io-multiplexing.cpp:250-255 | a run of one round that loses a descriptor |
| `SelectLeak.LeakyRefinesIterative` | computer-networking/lab-3/server-io-multiplexing.cpp:173-312 | and its connections are still served as the iterative server would, on the rounds that are not skipped |
| `SelectLeak.LeakyRoundOnOne` | computer-networking/lab-3/server-io-multiplexing.cpp:226-312 | a round with a failed accept or set_socket_nonblocking leaves every connection alone; in any other, each gets the answer on its socket, if that is ready |
| `EchoClient.StringsDifferExactly` | computer-networking/lab-2/client-multi.cpp:513 | strncmp up to a length without a zero compares all bytes |
| `EchoClient.ClientConnection.constructor` | computer-networking/lab-2/client-multi.cpp:193-208 | a fresh entry is connecting, or dead if there is no socket, with numRepeats - 1 repeats left, wrapped |
| `EchoClient.ClientConnection.ClientProcessSend` | computer-networking/lab-2/client-multi.cpp:384-465 | a finished connect loads the message; what is accepted leaves it; the last byte turns the state to receiving with an empty buffer; errors give the client up |
| `EchoClient.ClientConnection.Verify` | computer-networking/lab-2/client-multi.cpp:510-516 | the mismatch branch is taken exactly if the buffer is not the message |
| `EchoClient.ClientConnection.ClientProcessRecv` | computer-networking/lab-2/client-multi.cpp:468-537 | bytes are appended; a complete copy starts the next repeat, or ends the client after the last; a mismatch is reported if and only if the copy is complete and some byte of it is not that of the message |
| `EchoEmulator.Emulator.constructor` | computer-networking/lab-2/client-multi.cpp:226 | `clientsAlive` starts as the number of entries that are not dead |
| `EchoEmulator.Emulator.Register` | computer-networking/lab-2/client-multi.cpp:237-254 | connecting and sending clients are watched for writing, receiving ones for reading, dead ones not at all |
| `EchoEmulator.ReadyExactly` | computer-networking/lab-2/client-multi.cpp:237-281 | a live client is found in the set that its state asks for if and only if its socket is ready |
| `EchoEmulator.Emulator.Visit` | computer-networking/lab-2/client-multi.cpp:273-296 | one turn: the entry is served at most once, and a client not kept is closed, loses its socket, dies and is counted |
| `EchoEmulator.DeathsCount` | computer-networking/lab-2/client-multi.cpp:271-298 | the deaths of a pass are exactly what the number of live clients goes down by |
| `EchoEmulator.Emulator.Round` | computer-networking/lab-2/client-multi.cpp:228-299 | after every round `clientsAlive` is the number of clients that are not dead, and each death closed one socket |
| `EmulatorRuns.SocketsConserved` | computer-networking/lab-2/client-multi.cpp:226-299 | in every run each connected socket belongs to a live client or has been closed, once |
| `EmulatorRuns.LoopEndsExactly` | computer-networking/lab-2/client-multi.cpp:228-376 | the loop is left exactly when all clients are dead; then every connected socket is closed, and the clean-up finds none |
| `EmulatorRefinement.RoundOnOne` | computer-networking/lab-2/client-multi.cpp:271-296 | in every run a round serves every live client whose socket is ready, once and by its own answer, and leaves every other entry as it is; a client that this ends loses its socket |
| `EmulatorRefinement.ActionsAreVisitsExactly` | computer-networking/lab-2/client-multi.cpp:273-296 | the client's steps in the composed system are exactly what a visit can do when recv returns what is next in the channel |
| `EmulatorRefinement.ProjectsToSystem` | computer-networking/lab-2/client-multi.cpp:228-299 | in every run of the emulator, for every connected client and whatever the server does between the rounds: if recv returns what is next in its channel, one run of the composed system has this client after every round as the emulator has it; a visit is an action there, and a round that does not find the socket ready leaves the client alone |
| `EmulatorRefinement.EmulatorNeverMismatches` | computer-networking/lab-2/client-multi.cpp:508-517 | so no run of the emulator, with any number of clients, takes the message-mismatch branch |
| `EmulatorRefinement.EmulatorEchoes` | computer-networking/lab-2/client-multi.cpp:228-299 | after every round what a client has received is a prefix of what it has sent, and a client that ends without an error has sent and received all its copies |
| `SleepQueue.InsertKeepsOrder` | operating-system/OS-lab2/timer.c:288-295 | a new sleeper goes behind all equal deadlines: the list stays sorted and first come first served |
| `SleepQueue.EarlyExit` | operating-system/OS-lab2/timer.c:202-203 | in a sorted list nothing behind a deadline still ahead is due |
| `SleepQueue.Timer.TimerSleep` | operating-system/OS-lab2/timer.c:97-118 | the caller is inserted at its deadline; ticks and the order of the others stay |
| `SleepQueue.Timer.TimerInterrupt` | operating-system/OS-lab2/timer.c:192-208 | the loop from the front unblocks exactly the threads that a scan of the whole list would find due, in order |
| `SleepRuns.SoundAlways` | operating-system/OS-lab2/timer.c:97-208 | in every run of the queue, however a thread sleeps again, the list is sorted, without duplicates, first come first served among equals, and after every interrupt all deadlines are ahead |
| `SleepRuns.AsleepUntilWakeTick` | operating-system/OS-lab2/timer.c:97-208 | in every such run a thread that enters at tick b with deadline D is in the list until tick max(D, b + 1) |
| `SleepRuns.UnblockedExactlyOnce` | operating-system/OS-lab2/timer.c:192-208 | and is unblocked at exactly one interrupt, the one at that tick |
| `SleepRuns.UnblockedInOrder` | operating-system/OS-lab2/timer.c:198-207 | one interrupt unblocks in order of deadline, then of arrival |
| `SleepRuns.DeadlineIsCountdown` | operating-system/OS-lab2/README.md:108-148 | for positive sleeps entered in the tick they read, deadline minus ticks is the countdown value of every sleeper after every event |
| `SleepRuns.CleanRunsAgree` | operating-system/OS-lab2/README.md:108-148 | where also sleeps of one tick may enter late: the scan can follow the run, wake tick minus ticks is the countdown value after every event, and both unblock the same threads at every interrupt |
| `SleepRuns.AgreementExactly` | operating-system/OS-lab2/README.md:108-148 | over all runs of the queue: it and the countdown scan, which counts a repeated call anew, agree for ever if and only if every sleep is positive, and was entered in the tick it read or lasts one tick |
| `SleepRuns.EmptySleepDisagrees` | operating-system/OS-lab2/README.md:132-148 | a run with a sleep of no ticks on which they disagree |
| `SleepRuns.LateSleepDisagrees` | operating-system/OS-lab2/timer.c:99-113 | a run with a sleep that enters the list a tick late on which they disagree |
| `SleepRuns.SleepsAgain` | operating-system/OS-lab2/timer.c:97-113 | a thread woken from a sleep of no ticks sleeps again while the scan would still have it blocked: a run of the queue only |
| `SleepRuns.SleepsAgainLate` | operating-system/OS-lab2/timer.c:97-113 | the same after a sleep that entered the list a tick late |
| `Calibration.FindHighBit` | operating-system/OS-lab2/timer.c:60-65 | the doubling loop ends at the last power of two within a tick, and its ASSERT holds if and only if fewer than 2^31 loops fit into one |
| `Calibration.RefineBits` | operating-system/OS-lab2/timer.c:68-71 | nine bits are tried, each against the high bit alone |
| `Calibration.TimerCalibrate` | operating-system/OS-lab2/timer.c:51-74 | both loops together, on 32-bit words |
| `Calibration.FittingKeepsAllBelow` | operating-system/OS-lab2/timer.c:69-71 | so from the first bit that fits downwards every bit is kept |
| `Calibration.CalibrationBounds` | operating-system/OS-lab2/timer.c:58-71 | the estimate R for a limit L of at least 1024: 511 L < 512 R and 3 R < 4 L |
| `Calibration.SlowMachine` | operating-system/OS-lab2/timer.c:58-71 | with fewer than 1024 loops to a tick the first estimate stands |
| `Calibration.NotTooManyExactly` | operating-system/OS-lab2/timer.c:58-71 | the estimate stays within a tick if and only if what the high bit leaves, in units of the last bit tried, is 2^e - 1 |
| `Calibration.EstimateCanExceedTick` | operating-system/OS-lab2/timer.c:58-71 | with 1028 loops to a tick the estimate is 1030 |
| `DelayArithmetic.BusyWait` | operating-system/OS-lab2/timer.c:236-241 | the loop runs as often as its argument says, and not at all for a negative one |
| `DelayArithmetic.RealTimeSleep` | operating-system/OS-lab2/timer.c:244-269 | whole ticks, rounded down, if there is at least one; otherwise the busy-wait, with the exact number of iterations, and none for a negative time |
| `DelayArithmetic.DelayExactly` | operating-system/OS-lab2/timer.c:273-279 | the argument of busy_wait, by its two remainders: product over 1000 and then over denom/1000, each rounded down, in that order |
| `DelayArithmetic.DelayBounds` | operating-system/OS-lab2/timer.c:273-279 | the loop count r for the exact value x: r <= x < r + 1 + 1000 freq/denom, both scaled by denom |
| `DelayArithmetic.SubTickDelay` | operating-system/OS-lab2/timer.c:264-278 | below one tick r is below loops_per_tick, and no 64-bit intermediate overflows |
| `ShellGrammar.SentenceAccepted` | operating-system/OS-lab1/code/parse.c:26-113 | every sentence cmd item* ['&'] of the grammar, with at most one `<` and one `>`, is accepted with its meaning |
| `ShellGrammar.SentenceRead` | operating-system/OS-lab1/code/parse.c:26-113 | everything that is accepted is such a sentence |
| `ShellGrammar.AcceptedExactly` | operating-system/OS-lab1/code/parse.c:26-183 | a line is accepted with a command if and only if its tokens are a sentence that means the command: programs last to first, the files, the background flag |
| `ShellLexing.CharacterClasses` | operating-system/OS-lab1/code/parse.c:16-20 | blanks, special characters and the characters of a file name, one by one |
| `ShellLexing.TokensExactly` | operating-system/OS-lab1/code/parse.c:128-157 | the tokens of a line are the only sequence that the line is made of: blanks and tokens by turns, a special character being a token of its own and a word going on as far as it can |
| `ShellLexing.LineAcceptedExactly` | operating-system/OS-lab1/code/parse.c:26-183 | so, without tokenizer or parser: a line is accepted with a command if and only if it is made of the tokens of a sentence that means the command |
| `ShellDangling.DanglesExactly` | operating-system/OS-lab1/code/parse.c:73-108 | a line leaves the verdict to `cbuf` if and only if it is made of a sentence without `&` and the sign of a redirection that the sentence does not have |
| `ShellReading.LineReadsExactly` | operating-system/OS-lab1/code/parse.c:26-183 | what any line that begins with a word writes to `cbuf` and takes of the pools, accepted or not: each token read with its zero, the one behind a command twice, a cell for each command, a pointer for each word and NULL; and which token is the last one read |
| `ShellReading.EveryLineStops` | operating-system/OS-lab1/code/parse.c:26-183 | every line that begins with a word is such a sentence and a place where parse stops |
| `ShellReading.NoCommandRead` | operating-system/OS-lab1/code/parse.c:41-44 | of any other line one token is read, if there is one |
| `ShellRoundTrip.PrintThenParse` | operating-system/OS-lab1/code/parse.c:26-183 | a command written as a line parses to itself |
| `ShellRoundTrip.ParseThenPrint` | operating-system/OS-lab1/code/parse.c:26-183 | every accepted command can be written so |
| `ShellPools.LineWithin` | operating-system/OS-lab1/code/parse.c:115-183 | a line of n characters writes at most 3n characters, and takes n + 1 pointers and n/2 + 1 cells of the pools |
| `ShellPools.ShortLinesFit` | operating-system/OS-lab1/code/parse.c:22-24 | every line of up to 39 characters is parsed within all three pools |
| `ShellLimits.CellsReached` | operating-system/OS-lab1/code/parse.c:22-24 | lines of every even length reach the bound on cells; one of 40 characters does not fit |
| `ShellLimits.LettersDecide` | operating-system/OS-lab1/code/parse.c:82-90 | for every line that ends behind a redirection sign: after an earlier line of one word of letters parse accepts it, after one with a `!` at the end it rejects it |
| `ShellLimits.EarlierLinesDecideExactly` | operating-system/OS-lab1/code/parse.c:26-113 | whatever is in `cbuf`, there are two earlier lines after which parse accepts and rejects the line if and only if it ends behind a redirection sign and leaves two characters of `cbuf` |
| `ShellLimits.SomeLineDangles` | operating-system/OS-lab1/code/parse.c:76-113 | there is such a line |
| `ShellScan.SameTokens` | operating-system/OS-lab1/code/parse.c:128-157 | the tokens by position in the line are those of the recursive definition |
| `ShellParser.Parser.Init` | operating-system/OS-lab1/code/parse.c:115-126 | the free list of cells is linked and the pointers are at the start; `cbuf` keeps its contents |
| `ShellParser.Parser.NextToken` | operating-system/OS-lab1/code/parse.c:128-157 | the next token is appended to `cbuf` with its zero, what lies behind it is untouched, and the result is what it takes of the line, or 0 |
| `ShellParser.Parser.Acmd` | operating-system/OS-lab1/code/parse.c:159-183 | the words up to the next sign are in the pools as a NULL-terminated argument list of a new cell; the sign is read and left; the exact use of all three pools |
| `ShellParser.Parser.CheckIdentifier` | operating-system/OS-lab1/code/parse.c:187-196 | exactly the strings over letters, digits and the seven marks |
| `ShellParser.Parser.NewCmd` | operating-system/OS-lab1/code/parse.c:41-50 | a command is put in front of the list, or the line is rejected |
| `ShellParser.Parser.NewToken` | operating-system/OS-lab1/code/parse.c:52-112 | each branch of the switch leads where the grammar says, with the memory to show for it |
| `ShellParser.Parser.Parse` | operating-system/OS-lab1/code/parse.c:26-113 | on any line that fits the pools: 1 with the command in memory, found through its links, or -1, as the grammar says; a dangling redirection takes what an earlier line left; and what this line leaves in `cbuf`, character by character |
| `PoolProtocol.AccountedAlways` | distributed-system/lab-1/server/http-server.go:58-120 | in every interleaving: the wait group is the goroutines not returned, connectionCount is handlers counted in plus malformed requests, each accepted connection is in exactly one place |
| `PoolProtocol.CountDriftsByMalformed` | distributed-system/lab-1/server/http-server.go:85-120 | at most N handlers run at once, and connectionCount is right if and only if no request was malformed |
| `PoolProtocol.CountedByEvents` | distributed-system/lab-1/server/http-server.go:88-119 | connectionCount is the handlers started less those ended without a malformed request; accepted, malformed and closed are numbers of their own events |
| `PoolProtocol.AcceptorStops` | distributed-system/lab-1/server/http-server.go:62-72 | behind an error of Accept the acceptor returns if and only if the shutdown has been signalled |
| `PoolProtocol.ClosedOnce` | distributed-system/lab-1/server/http-server.go:85-86 | no connection is closed twice, and only accepted ones are |
| `PoolShutdown.CountCanDrift` | distributed-system/lab-1/server/http-server.go:103-107 | connectionCount can be any number while nobody is served |
| `PoolShutdown.RunsEnd` | distributed-system/lab-1/server/http-server.go:246-257 | once the listener is closed, only so many steps are left |
| `PoolShutdown.GracefulExactly` | distributed-system/lab-1/server/http-server.go:246-262 | a run that only the time-out could continue ends with acceptor and all N workers returned, the wait group at zero and each accepted connection closed exactly once, if and only if the acceptor held no undelivered connection when Stop closed the channel |
| `PoolShutdown.StopReturns` | distributed-system/lab-1/server/http-server.go:253-269 | Stop returns once, after closing the channel: when all have returned, or at the time-out, which changes nothing else; nothing happens afterwards |
| `PoolShutdown.StopCanTimeOut` | distributed-system/lab-1/server/http-server.go:264-269 | the time-out can leave a handler at work and its connection open |
| `PoolShutdown.StopCanPanic` | distributed-system/lab-1/server/http-server.go:73 | otherwise the send on the closed channel brings the server down |
| `PoolServer.HandledEffect` | distributed-system/lab-1/server/http-server.go:85-120 | a handler closes its connection and leaves the count where it was, or one higher after a malformed request |
| `PoolServer.Server.HandleConnection` | distributed-system/lab-1/server/http-server.go:85-120 | handleConnection does on its counter what the protocol's steps do |
| `PoolServer.Server.Worker` | distributed-system/lab-1/server/http-server.go:77-83 | a worker closes what it takes from the channel, in order, and leaves the count off by the malformed requests |

## Left out

- Bus: fairness, which the source disclaims; the random transfer durations, the final `timer_sleep` of
  batch_scheduler and all output. The 200 tasks of its ASSERT bound every counter, so only the conversion
  in MIN is modelled on 32 bits.
- Bus: which of several sleepers takes a token. Any may, so nothing rests on the order of a semaphore's
  queue; `get_slot` is cut where it may sleep, and each part is atomic because it holds `mutex`.
- BusTokens.TokensFitExactly: names the woken tasks of a class, which no counter of the source holds; the
  counters only have their number over all classes.
- Echo: opening sockets, address resolution, time stamps and statistics, verbose output, exit codes, the
  select time-out and `maxfd`; a select that fails leaves the loop, and one that reports nothing is a round with
  nothing ready.
- Echo: snprintf's formatting of the message with the client's number; the message is any string without a
  zero of at most 255 bytes, and the same each time.
- EmulatorRefinement.ProjectsToSystem: that TCP delivers on each socket its own bytes in order is a hypothesis
  (`Faithful`), and the channels of EchoSystem; it is not derived from the kernel.
- Timer: `list_insert_ordered` and the thread functions of Pintos are not part of this model; the list is
  inserted into before the first strictly greater element. The number and tick that a sleeper carries are
  bookkeeping for the statements, read by no code.
- Timer: overflow of the 64-bit tick counter and of `start + ticks`, which would take longer than the
  machine lives; interrupt levels; the scheduler's own use of the tick.
- Calibration.TimerCalibrate: takes one number of loops per tick for the whole calibration; a machine
  whose speed varies between two measurements is not modelled.
- DelayArithmetic.SubTickDelay: takes TIMER_FREQ from 19 to 1000, which timer.c:13-18 checks when it is compiled.
- Shell: characters outside ASCII are neither space nor alphanumeric; `isalnum` and `isspace` are those of
  the C locale. The messages to stderr are left out.
- ShellParser.Parser.Parse: requires that the line fits the pools, and that a dangling redirection leaves
  a character of `cbuf`; beyond that the source writes or reads outside its arrays.
- Shell: `lsh.c` and `lsh-custom.c`, which fork, open pipes and handle signals; what a pipeline does is
  the kernel's.
- Pool: HTTP parsing, files and paths, and what a handler writes. `atomic.Int32` is unbounded here; it
  would wrap after 2^31 malformed requests.
- PoolShutdown.GracefulExactly: is about runs in which Stop's five seconds do not pass; a handler that
  never returns is a run that something could continue.
- PoolServer.Server.Worker: runs alone; what other goroutines do in between is in PoolProtocol.
- The iterative server's failed set_socket_nonblocking, which leaks as in SelectLeak; `client-simple.cpp`,
  a smaller case of the multi-client; `ls.c`, `who.c`, `date-time.c` and the other small programs; scripts,
  logs and diagrams: they are small, and independent of the programs modelled.
