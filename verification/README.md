# A verified model of the shared job queue

Producers and consumers share a queue of jobs in memory. The queue is a circular buffer of job
records (`jobqueue.c`, `job.c`), guarded by three semaphores (`sem_jobqueue.c`) or by a
busy-waiting lock (`mutex_peterson.c`, `mutex_lockvar.c`, `test/test_ipc.c`), and each process
logs its jobs to a file of fixed-width lines (`joblog.c`). This project models these parts in
Dafny 4.11 and proves what they promise, or exactly when they keep the promise.
`dafny verify dfyconfig.toml` checks everything.

## How it is built

- `Jobs.dfy`, `Ring.dfy`, `JobQueue.dfy`, `RingRuns.dfy`: the job record and its label rules; the
  circular buffer as a value, with the small steps by which enqueue and dequeue change it; the
  queue as a class that updates job structs in place; whole runs of calls against a bounded
  sequence. `Calls.dfy` has the calls and their answers on such a sequence, `Sequences.dfy` parts
  of sequences and subsequences.
- `SemMachine.dfy`: any number of processes, each with its own list of calls. A call is its wait
  for a token, its wait on the mutex, up to four steps of body, and its posts. Any process may move
  next and any `sem_wait` may fail. `SemInvariant.dfy` has what every step keeps, `SemSafety.dfy`
  and `SemDelivery.dfy` what follows for every run and every caller, `SemRefinement.dfy` the atomic
  blocking FIFO that every interleaving refines, `SemLiveness.dfy` termination, deadlock and
  completion. `SemJobQueue.dfy` has the calls as written, over the class, and ties each to the
  transition system.
- `Peterson.dfy`, `LockVar.dfy`: the busy-waiting protocols, one shared read or write a step.
- `Decimal.dfy`, `JobLog.dfy`, `JobLogFiles.dfy`: printing and reading of numbers, the log line and
  the offset read, the files of all processes.

In the transition system the record `past` holds observations that the program does not store:
the jobs accepted and handed out and by whom, the tokens whose holder failed to get the mutex, the
NULL jobs passed, and the dequeues that found nothing. The sums `Holding`, `InFlight` and `Owing`
range over all processes.

## Where the code and its documentation differ

The model follows the code.

- job.h:101-106 says that a copy is equal to its source. `job_copy` re-pads the label, so this holds
  exactly for labels of full length (`Jobs.CopyIsEqualIffWellFormed`).
- sem_jobqueue.h:130-132 and 164-166 say that a failing `sem_wait` leaves the queue unchanged. It
  does, but the token already taken is not given back, so the usable capacity shrinks
  (`SemLiveness.BlocksExactlyWhen`, `SemLiveness.FailedWaitCanBlockForEver`).
- mutex.h:102-113 promises mutual exclusion. `mutex_peterson.c` writes `turn` before `interested`,
  and excludes exactly as long as no process writes `turn` between the other's two writes
  (`Peterson.TurnWriteBreaksIff`). The order of `test/test_ipc.c` excludes always.
- jobqueue.h:246 says that enqueueing NULL has no effect, and sem_jobqueue.h:157-169 names no
  exception for the guarded queue. There the call takes an `empty` token and posts `full`, so a
  later dequeue returns NULL where it would have waited (`SemSafety.NullMakesDequeueMiss`).
- joblog.h:144-145 promises lines of one width. A line is 16 characters, the two printed numbers
  and the label (`JobLogs.LineLength`), so a label of full length gives the promised width exactly
  if both ids fit. With ids that fit, a shorter label gives too short a line, for example that of
  a job that `job_init` has zeroed (`JobLogs.ZeroedJobIsMisread`). The log reads back, for any jobs
  at all, exactly if every line but the last has the promised width and no newline before the last
  place of its label, and the last line is like that or is shorter with a newline at the end of its
  label (`JobLogs.ReadsBackIff`).
- joblog.h:142 shows an example entry of 57 characters. The label that `job_set` stores makes it
  58, as in README_joblog_example.txt (`JobLogs.DocumentedEntry`, `JobLogs.LineLength`).

## Model

| member | source | states |
|---|---|---|
| `Jobs.JobSet` | job.c:73-94 | sets every field; whatever the label argument, NULL and empty included, place k of the stored array is the label's character if the label is longer than k and '*' otherwise, for 31 places, then NUL; a NULL job stays NULL |
| `Jobs.SetLabel` | job.c:81-91 | the stored label read as a C string is the 31-character padded or truncated label, and the array ends in NUL |
| `Jobs.LabelPlaces` | job.c:81-91 | character by character: the first 31 places hold the label, filled up with '*', and the last holds NUL |
| `Jobs.NormaliseFixesWellFormed` | job.h:47-59 | job_set always leaves a full-length label, is idempotent, and leaves a label unchanged exactly if it already has full length |
| `Jobs.WellFormedIsNotCleared` | job.c:42-52 | a job that job_set stored is never mistaken for a slot that job_init zeroed |
| `Jobs.CStringIs` | job.c:86-89 | the string in an array is its one NUL-free prefix that NUL or the end follows |
| `Jobs.JobNew` | job.c:13-15 | a fresh job with the normalised label, or NULL exactly if malloc fails |
| `Jobs.JobCopy` | job.c:23-36 | all four pointer cases of job_copy: NULL source, same object, NULL destination with and without memory, distinct objects; the source is untouched and the copy is the normalised source |
| `Jobs.CopyIsEqualIffWellFormed` | job.h:101-106 | the promise that a copy is job_is_equal to its source holds if and only if the source label has full length |
| `Jobs.CopyOfShortLabelDiffers` | job.h:101-106 | a one-character label for which the promise fails |
| `Jobs.JobInit` | job.c:42-52 | a non-NULL job becomes the zeroed job: pid 0, id 0 and 32 NULs |
| `Jobs.JobIsEqual` | job.c:58-66 | true exactly for two NULLs or two jobs with equal ids and equal label strings |
| `Jobs.StrncmpComparesStrings` | job.c:64-65 | strncmp over the whole arrays is zero exactly if the strings in them are equal, whatever follows their NULs |
| `Jobs.EqualValuesIff` | job.h:166-169 | the strncmp comparison of job_is_equal is equality of ids and of label strings |
| `Rings.RingIsBoundedFifo` | jobqueue.c:59-87 | enqueue and dequeue on a clean buffer of any size from 2 leave it clean; enqueue appends the normalised job exactly if there is room and the job is not NULL, dequeue removes the first |
| `Rings.Ends` | jobqueue.c:92-143 | the empty and full tests say length 0 and length buf_size - 1; the head slot holds the first job and the slot behind the tail, wrapping at 0, the last |
| `Rings.EmptyAndFull` | jobqueue.c:92-105 | for any buffer, clean or not, the two index tests detect occupancy 0 and buf_size - 1 |
| `Rings.PutAtTail` | jobqueue.c:84 | writing the tail slot does not change the queue yet, and zeroing it again gives back the old buffer |
| `Rings.AdvanceTailAppends` | jobqueue.c:86 | moving the tail over a written slot appends exactly that job and cleans the buffer |
| `Rings.ClearAtHead` | jobqueue.c:64-72 | zeroing the head slot takes the first job out at that moment; moving the head afterwards changes nothing more and cleans the buffer |
| `Rings.SlotsDetermineQueue` | jobqueue.c:64-86 | slot hygiene: the number of non-zeroed slots is the length, and head and slots alone determine the tail and the queue |
| `Rings.EmptyRingIsClean` | jobqueue.c:14-21 | the initialised buffer is clean and empty, for every size from 2 |
| `Rings.NextIsRemainder` | jobqueue.c:65-86 | the wrap used by the model is the source's remainder |
| `RingRuns.RingRunsAsBoundedFifo` | jobqueue.c:59-143 | for every buffer size and every sequence of calls the replies and contents are those of a bounded sequence of jobs |
| `RingRuns.EnqueuedJobComesOut` | jobqueue.h:19-20 | a job put into a queue with room comes out after the jobs before it, normalised, and equal to itself if and only if its label had full length |
| `JobQueues.JobQueue.constructor` | jobqueue.c:27-33 | the memory of a queue: distinct slots with arbitrary contents |
| `JobQueues.JobQueue.Init` | jobqueue.c:14-21 | the loop leaves every slot zeroed and the queue valid and empty, with head and tail 0 and pid 0, id 0 and 32 NULs in each slot |
| `JobQueues.NewJobQueue` | jobqueue.c:27-38 | an empty queue of 128 slots, or NULL exactly if malloc fails |
| `JobQueues.JobQueue.Capacity` | jobqueue.c:43-46 | buf_size - 1, at least 1, never below the number of jobs |
| `JobQueues.JobQueue.IsEmpty` | jobqueue.c:92-94 | true exactly if there are no jobs |
| `JobQueues.JobQueue.IsFull` | jobqueue.c:99-105 | true exactly if buf_size - 1 jobs are queued |
| `JobQueues.JobQueue.PeekHead` | jobqueue.c:110-112 | returns a copy of the first job in dst or in fresh memory, NULL exactly if empty or out of memory; the queue is unchanged |
| `JobQueues.JobQueue.PeekTail` | jobqueue.c:127-143 | the same for the last job, across the wrap |
| `JobQueues.JobQueue.Dequeue` | jobqueue.c:59-76 | removes the first job and returns a copy of it in dst or in fresh memory; NULL exactly if empty or out of memory, and in the latter case the job is lost |
| `JobQueues.JobQueue.Enqueue` | jobqueue.c:80-87 | appends the normalised job if it is not NULL and there is room, otherwise changes nothing; the argument is untouched |
| `SemInvariant.InitHolds` | sem_jobqueue.c:80-97 | the freshly made queue satisfies the invariant for every size and every set of programs |
| `SemInvariant.StepKeepsInv` | sem_jobqueue.c:130-260 | every small step of every process, failing waits and NULL jobs included, keeps buffer shape, mutual exclusion, token conservation, exact occupancy and FIFO order |
| `SemInvariant.RunKeepsInv` | sem_jobqueue.c:130-260 | the same over every schedule |
| `SemInvariant.TokenMeansRoom` | sem_jobqueue.c:134-172 | a call that has its token and has not acted yet finds a place, or something to take, abandoned tokens and outstanding NULL jobs counted |
| `SemInvariant.BodyFindsRoomAndJobs` | jobqueue.c:60-82 | from the semaphore layer the silent-drop branch is never taken, and the empty branch of dequeue only while a NULL job's token is outstanding |
| `SemSafety.EveryReachedStateIsSafe` | sem_jobqueue.c:134-175 | in every reachable state: at most one process in a body and the mutex is free exactly if there is none; tokens conserved with abandoned ones counted; occupancy exact; accepted = handed out then queued; misses at most NULL jobs |
| `SemSafety.BodyIsNotInterrupted` | sem_jobqueue.c:138-145 | while a process is in a body no step of another touches the buffer, changes that process or enters a body |
| `SemSafety.WithoutNullsOccupancyIsExact` | sem_jobqueue.c:156-178 | without NULL jobs, even when waits fail, the length is full plus calls under way plus abandoned full tokens, and no dequeue finds the queue empty |
| `SemSafety.NoJobIsDropped` | sem_jobqueue.c:163-175 | with NULL jobs too, an enqueue that reaches its body never finds the queue full |
| `SemSafety.NullMakesDequeueMiss` | sem_jobqueue.c:163-175 | a run in which a NULL job makes a later dequeue return NULL from the empty queue instead of waiting |
| `SemSafety.EachJobOnceInOrder` | sem_jobqueue.c:143-175 | each producer pid's jobs come out in the order accepted, and distinct (pid, id) pairs stay distinct over handed out and queued jobs |
| `SemDelivery.CallersReceiveWhatWasHandedOut` | sem_jobqueue.c:143-148 | what each caller's dequeues return, in order, is exactly what was taken out of the queue for it |
| `SemDelivery.NoJobReachesTwoCallers` | sem_jobqueue.c:143-148 | if accepted (pid, id) pairs are distinct, no two callers receive the same job and no caller receives one twice |
| `SemDelivery.ProducersKeepProgramOrder` | sem_jobqueue.c:172-175 | when no wait fails, what a process has put in plus what it has still to put in is what its program offers, in order |
| `SemDelivery.ProducersKeepOrderThroughFailures` | sem_jobqueue.c:163-175 | when waits fail too: what a process has put in, and then what it has still to put in, is a subsequence of what its program offers |
| `SemDelivery.CallersSeeProgramOrder` | sem_jobqueue.c:130-178 | end to end, in every run: the jobs that any one caller has received from any one process are a subsequence of what that process's program offers |
| `SemRefinement.StepRefines` | sem_jobqueue.c:130-260 | each small step is one action of an atomic blocking bounded FIFO, or nothing |
| `SemRefinement.RunRefines` | sem_jobqueue.c:130-260 | every interleaving of any number of processes, failing waits included, has the queue, replies and abandoned tokens of a run of the atomic FIFO |
| `SemRefinement.FreshQueueRefines` | sem_jobqueue.h:124-129 | from a fresh queue, with every caller's returned values |
| `SemRefinement.AtomicQueueIsBounded` | jobqueue.h:19-20 | the atomic FIFO that all runs refine never outgrows its capacity less the places lost, whatever is done with it |
| `SemLiveness.StepUsesWork` | sem_jobqueue.c:130-260 | every step of every schedule lowers the remaining work |
| `SemLiveness.SchedulesAreFinite` | sem_jobqueue.c:130-260 | no schedule is longer than eight steps a call |
| `SemLiveness.RunsOnUntilStuck` | sem_jobqueue.c:130-260 | from every state without further failures a state is reached where nothing can move |
| `SemLiveness.WaitingCounts` | sem_jobqueue.c:134-165 | with nobody in flight the semaphores equal the occupancy and the free places, less abandoned tokens |
| `SemLiveness.BlocksExactlyWhen` | sem_jobqueue.c:134-165 | with nobody in flight an enqueue blocks exactly at occupancy capacity minus abandoned empty tokens, a dequeue exactly at abandoned full tokens |
| `SemLiveness.HeldUpIff` | sem_jobqueue.c:134-170 | in every state, whatever is in flight: a call is held up exactly at its token when occupancy, places promised to calls in flight and abandoned tokens leave nothing for it, or at the mutex while somebody is in a body; only waits can fail |
| `SemLiveness.WaitsLikeAtomicQueue` | sem_jobqueue.c:134-170 | with nobody in flight a call waits exactly when the atomic FIFO blocks it |
| `SemLiveness.StuckIff` | sem_jobqueue.c:134-170 | deadlock, exactly: nobody in flight and every unfinished call at its limit |
| `SemLiveness.OneKindWaits` | sem_jobqueue.c:134-170 | stuck states hold only enqueuers or only dequeuers unless as many tokens are abandoned as there are places; without abandoned tokens or outstanding NULLs the queue is then full or empty |
| `SemLiveness.FailedWaitCanBlockForEver` | sem_jobqueue.c:163-170 | a schedule in which one failed wait on the mutex breaks empty + full + in flight = capacity and leaves a producer waiting on an empty queue |
| `SemLiveness.RunBalances` | sem_jobqueue.c:130-178 | in runs without failures, accepted plus still to put in, and handed out plus missed plus still to take, stay constant |
| `SemLiveness.CompletesIff` | sem_jobqueue.c:130-178 | pure producers and consumers of real jobs, no failing wait: a schedule that cannot go on has finished all calls if and only if D <= E <= D + capacity, and has then left exactly the last E - D accepted jobs, in order |
| `SemLiveness.GuaranteedCompletion` | sem_jobqueue.h:125-129 | under that condition every schedule is bounded and every one that stops has finished |
| `SemLiveness.ProducerAndConsumer` | sem_jobqueue.c:130-178 | one process puts in a list of jobs and another makes d dequeues: a run that cannot go on has finished exactly if d <= jobs <= d + capacity, the consumer has then received the first d jobs as stored, in order, and the rest are queued |
| `SemLiveness.ImpureProgramCanBlock` | sem_jobqueue.h:125-129 | purity is needed: a process that dequeues before it enqueues waits for itself |
| `SemJobQueues.AloneCall` | sem_jobqueue.c:130-260 | a process of the transition system scheduled alone gives up, blocks or completes exactly as the written call does, token by token |
| `SemJobQueues.SemJobQueue.constructor` | sem_jobqueue.c:66-97 | mutex 1, full 0, empty capacity over an initialised buffer: the transition system's initial state |
| `SemJobQueues.SemJobQueue.Capacity` | sem_jobqueue.c:118-124 | the queue's capacity |
| `SemJobQueues.SemJobQueue.Enqueue` | sem_jobqueue.c:156-178 | the call as written ends in the state, with the reply or at the wait, that the transition system reaches; it blocks exactly at a wait that does not fail on a semaphore at 0; with tokens it appends and moves one token from empty to full, otherwise the queue is unchanged and a taken token stays taken |
| `SemJobQueues.SemJobQueue.Dequeue` | sem_jobqueue.c:130-150 | the same for dequeue, which returns the first job in dst or in fresh memory; without memory the job is taken out all the same and NULL returned |
| `SemJobQueues.SemJobQueue.IsEmpty` | sem_jobqueue.c:184-198 | true if the wait fails, blocked exactly if it does not fail and the mutex is 0, otherwise whether the queue is empty; the mutex is given back |
| `SemJobQueues.SemJobQueue.IsFull` | sem_jobqueue.c:204-218 | true if the wait fails, blocked exactly if it does not fail and the mutex is 0, otherwise whether the queue is full; the mutex is given back |
| `SemJobQueues.SemJobQueue.PeekHead` | sem_jobqueue.c:224-238 | NULL if the wait fails, blocked exactly if it does not fail and the mutex is 0, otherwise a copy of the first job, or NULL if there is none or no memory for it; nothing else changes |
| `SemJobQueues.SemJobQueue.PeekTail` | sem_jobqueue.c:244-260 | the same for the last job |
| `Peterson.InterestFirstExcludes` | test/test_ipc.c:20-32 | interest before turn: from every state of the invariant, on every schedule, never both inside |
| `Peterson.InterestFirstExcludesFromStart` | test/test_ipc.c:20-32 | the same from zeroed memory, for all ids of opposite parity |
| `Peterson.CarefulRunExcludes` | mutex_peterson.c:58-64 | turn before interest: never both inside on a run in which no process writes turn while the other is between its two doorway writes |
| `Peterson.CarefulRunExcludesFromStart` | mutex_peterson.c:58-64 | the same from zeroed memory, where every careful run also keeps the invariant that TurnWriteBreaksIff assumes |
| `Peterson.TurnWriteBreaksIff` | mutex.h:102-113 | the exclusion promised fails exactly so: after a write of turn some careful continuation puts both inside if and only if the other process stood between its two writes |
| `Peterson.CarelessWriteBreaks` | mutex_peterson.c:59-64 | the five-step continuation that does it, from any such state |
| `Peterson.BaseFromStart` | ipc.c:59 | both orders: every state reached from zeroed memory by any schedule satisfies what the theorems on bypass and progress assume |
| `Peterson.StepTouches` | mutex_peterson.c:58-83 | both orders: a step changes its own point and interest only, turn only where the process takes the turn, and goes round outside, doorway, loop, inside |
| `Peterson.LoopTest` | mutex_peterson.c:61-64 | both orders: one undisturbed evaluation of the loop test lets a process in if and only if the turn is not its own or the other is not interested, and otherwise leaves everything unchanged |
| `Peterson.GetsInUnopposed` | mutex_peterson.c:58-64 | both orders: a process gets in within four of its own steps as long as the other shows no interest, on any schedule and from any points |
| `Peterson.AloneInAndOut` | test/test_ipc.c:20-37 | both orders: with the other outside, entering takes exactly four accesses and leaving a fifth, after which only turn has changed |
| `Peterson.TurnFirstFails` | mutex_peterson.c:59-64 | from zeroed memory, for all ids of opposite parity, a run with both inside |
| `Peterson.BypassAtMostOnce` | mutex_peterson.c:59-83 | both orders, any schedule: while one process waits the other gets in at most once, and not at all unless it wrote turn first |
| `Peterson.LeavesWhenNotItsTurn` | mutex_peterson.c:61-64 | both orders: a waiting process whose id is not in turn gets inside within at most two of its steps, whatever the other does |
| `Peterson.OneOfTwoWaitersGoes` | mutex_peterson.c:61-64 | both orders, both waiting: the one whose id differs from turn gets in on its next evaluation while the other still waits |
| `Peterson.OtherYields` | mutex_peterson.c:59-83 | both orders: within five steps the other has written turn last, while the first waits |
| `Peterson.NoStarvation` | mutex_peterson.c:59-83 | both orders: after five steps of the other and two of its own, interleaved otherwise at will, a waiting process has got inside |
| `Peterson.EveryoneGetsIn` | mutex_peterson.c:58-83 | both orders, from every state: two own steps, then five of the other, then two own, interleaved otherwise at will, get a process inside |
| `Peterson.Shared.constructor` | ipc.c:59 | turn 0, both interests 0 and both processes outside |
| `Peterson.Shared.Move` | mutex_peterson.c:56-83 | one access to the shared structure, indexed by parity, as the transition system's step |
| `Peterson.Shared.Execute` | test/test_ipc.c:20-32 | running a schedule over the shared memory reports exactly whether both were ever inside: never for interest first, never for careful runs of turn first |
| `LockVar.AllCanBeInside` | mutex_lockvar.h:11 | for every number of processes a schedule with all of them inside |
| `LockVar.CarefulRunExcludes` | mutex_lockvar.c:14-16 | at most one inside on a run in which no process finds the lock open while another is about to close it |
| `LockVar.CarefulRunExcludesFromStart` | mutex_lockvar.c:5-16 | the same from an open lock, with the invariant that TestBreaksIff assumes |
| `LockVar.StepTouches` | mutex_lockvar.c:9-25 | a step changes its own point only; the lock becomes 1 on the way in and 0 on the way out, and is otherwise unchanged |
| `LockVar.AloneInAndOut` | mutex_lockvar.c:9-25 | a process on its own gets in with two accesses to an open lock and out with a third, which restores the state |
| `LockVar.EveryoneCanGetIn` | mutex_lockvar.c:9-25 | from every state of a careful run each process can be brought inside by a careful continuation of at most four steps |
| `LockVar.TestBreaksIff` | mutex_lockvar.c:14-16 | after a successful test some careful continuation puts two inside if and only if another process was about to close the lock |
| `LockVar.Shared.constructor` | mutex_lockvar.c:5-7 | the lock starts at 0 with every process outside |
| `LockVar.Shared.Move` | mutex_lockvar.c:9-25 | one read or write of the lock, as the transition system's step |
| `LockVar.Shared.Execute` | mutex_lockvar.c:9-25 | running a schedule over the shared lock ends where the transition system does, and with at most one inside after a careful run |
| `Decimal.NumberOfPadded` | joblog.c:14-15 | reading a zero-padded number gives back the number, for every width and sign |
| `Decimal.PaddedWidth` | joblog.c:14-15 | the width is a minimum, exact just for the numbers that fit it, sign included |
| `Decimal.PaddedFits` | joblog.c:14-15 | a number that does not fit its width takes just the characters it needs |
| `JobLogs.EntryDecodes` | joblog.c:15 | the three fields of every entry can be read back from it, in range or not: the pid, the label, and the id itself below 2^31, otherwise the signed 32-bit number equal to it modulo 2^32 |
| `JobLogs.DocumentedEntry` | README_joblog_example.txt:2 | the entry of job 1 of process 1 with label "a", character by character |
| `JobLogs.SameLineIff` | joblog.c:15 | two jobs have the same line if and only if job_is_equal holds of them |
| `JobLogs.LineLength` | joblog.h:144-145 | a line is 16 characters, the two printed numbers and the label, for every job; with a label of full length it has the promised 59 exactly if both ids fit, and with ids that fit it is 28 longer than the label |
| `JobLogs.OffsetOfRecord` | joblog.c:89 | after m lines of 59 characters the next record begins at offset 59 m |
| `JobLogs.FgetsOfLine` | joblog.c:96-104 | for every line: fgets yields the entry exactly if the entry has at most 58 characters, no newline before its last place, and 58 characters or a newline in its last place |
| `JobLogs.FgetsIs` | joblog.c:96-104 | fgets takes the longest start of the rest of the file that fits and has nothing after a newline |
| `JobLogs.ReadsBackIff` | joblog.h:42-50 | for every list of jobs: reading entry k gives line k without its newline for 0 <= k < N and NULL elsewhere, if and only if every line but the last has 59 characters and no newline before the last place of its label, and the last is like that or is shorter with a label that ends in a newline |
| `JobLogs.RegularReadsBack` | joblog.c:89-113 | lists of jobs with lines of 59 characters and no newline before the last place of their labels read back, for all entry numbers including negative ones |
| `JobLogs.StoredJobsReadBackIff` | joblog.h:129-145 | for jobs with labels of full length, as job_set leaves them: the log reads back if and only if all ids fit and no label has a newline in its first 30 places |
| `JobLogs.ReadsBackIffAligned` | joblog.h:144-145 | for labels of any length without newlines: the log reads back if and only if every line has 59 characters |
| `JobLogs.WideIdIsMisread` | joblog.h:144-145 | a six-digit job id for which the read fails |
| `JobLogs.ZeroedJobIsMisread` | joblog.h:144-145 | a job that job_init has just zeroed: its line has 28 characters and is not read back |
| `JobLogFiles.LogNamesDiffer` | joblog.c:27-37 | two processes share a log name only if they are the same, for ids of any width |
| `JobLogFiles.LogNameInFull` | joblog.c:14-37 | the name of every log in full: directory, type label, zero-padded id, extension |
| `JobLogFiles.LogsAreIsolated` | joblog.c:123-163 | after any interleaving of writes and deletes by all processes each log holds exactly its own jobs since its last deletion |
| `JobLogFiles.DirectoryHoldsLogs` | joblog.c:123-163 | the directory has a file for exactly the processes that have written since their last deletion, and no others |
| `JobLogFiles.ProcessReadsItsOwnJobs` | joblog.c:75-163 | so, for any jobs of any process, each process reads back exactly its own jobs if and only if these make a readable log in the sense of ReadsBackIff |
| `JobLogFiles.LogDirectory.WriteEntry` | joblog.c:123-143 | appends one line to the one file, and nothing if an argument is NULL or the file does not open; all other processes' files are unchanged |
| `JobLogFiles.LogDirectory.ReadEntry` | joblog.c:75-115 | NULL exactly for a NULL process, a negative number, a missing file or an offset past the end; otherwise up to 58 characters from offset 59 times the number, as fgets reads them |
| `JobLogFiles.LogDirectory.Delete` | joblog.c:148-163 | removes that process's file; all others are unchanged |
| `JobLogFiles.LogDirectory.ReadAll` | joblog.h:61-69 | the read-until-NULL loop ends on every log, after one read for each 59 characters or part of them; on a readable log it visits all of the process's jobs in order |

## Left out

- Shared memory, semaphore names and process set-up (`ipc.c`, `shobject_name.c`, `rmsho.c`): system calls and fixed names. Runs start from zeroed memory and an initialised queue.
- The failure path of `sem_jobqueue_new`: the test at sem_jobqueue.c:94 is true whenever it is reached, so nothing is claimed about semaphores that did not open.
- Release of memory, semaphores and files' parent directory (`*_delete` of queues and mutexes, `joblog_init`): resource management.
- `ipc_jobqueue.c` and the delays of `proc.c`: a pass-through and timing only.
- NULL queue, semaphore-queue and mutex handles: the source returns at once; here they are the receivers of methods, which are never NULL. NULL jobs, destinations, processes and descriptors of logs are modelled.
- Pointers into the buffer as a job or destination: excluded by precondition, as jobqueue.h:60-61 reserves the fields to jobqueue.c.
- A dequeue or peek that runs out of memory for its copy, in the transition system: there it always returns the job it copies. The methods of JobQueues.JobQueue and SemJobQueues.SemJobQueue do model it.
- A label array without NUL as the source of a copy: `snprintf` would read past it; the model takes the whole array as the string.
- Failures of `sem_post`, and semaphore values beyond the system's maximum.
- Memory-model effects and compiler reordering in the busy-waiting loops: single reads and writes are sequentially consistent.
- Fairness of semaphores: left to the operating system by the source.
- JobLogFiles.LogDirectory.WriteEntry: a write that fails half-way is not modelled.
- JobLogFiles.LogDirectory.ReadEntry: the product of entry number and line width is unbounded here, while the source's `int` overflows beyond entry 36 million; errno is not modelled.
- JobLogFiles.LogDirectory.Delete: a NULL descriptor is not modelled, since `remove` is then called on NULL.
- `mutex_noop.c` does nothing by design.
