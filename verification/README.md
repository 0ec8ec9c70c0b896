# Verified model of the file-transfer servers, clients and caches

This project models three concurrent systems of the repository and the sequential code under them,
and proves what they guarantee on every run.

* **The shared-memory cache** (`pr3/cache`). Any number of proxy workers take segments from a pool
  guarded by a mutex and a condition variable, initialise three semaphores in the segment, and post
  a request on a message queue of ten slots; any number of cache workers take requests and hand the
  file over chunk by chunk through the segment. `SharedCache` is the system of steps,
  `SharedCacheInvariant` and `SharedCacheSteps` its inductive invariant, `SharedCacheProgress`
  deadlock freedom and the measure, `SharedCacheTheorems` the results on whole runs,
  `SharedCacheQueues` the order that the queues keep and whom a broadcast wakes,
  `SharedCacheFailures` what one failing send does to the rest of a run, and `SharedCacheCluster` the
  imperative form over mutable segments.
* **The download client's pool** (`pr1/mtgf/gfclient_download.c`): boss and workers that sleep on
  one condition variable. `ClientPool`, `ClientPoolSteps`, `ClientPoolProgress`,
  `ClientPoolTheorems`; `DownloadPool` is the imperative form over the linked-list queue.
* **The file server's pool** (`pr1/mtgf/gfserver_main.c`, `handler.c`): `ServerPool`,
  `ServerPoolTheorems`; `WorkerPool` is the imperative form.
* **Sequential code**: the linked `Steque`, the sorted index `SimpleCache`, the copying loops of
  `Transfer`, the receive loop `GetfileClient` with `GetfileHeader` (the first line of a response) and
  `GetfileClientTheorems` (the chunks), and `SegmentNames` over `Decimal`. `Basics` holds sums of
  weights for the measures.

In the concurrent models a step is one semaphore operation, one mutex region, one queue operation,
one signal or broadcast, one store to a segment, or one local action. A run is any sequence of
enabled steps of any threads. Spurious wakeups are steps of their own: the safety results allow
them, and each adds two steps to the bounds on the length of runs. The imperative classes perform
the same steps in place, one method each, tied by its contract to the step function that the
theorems are about; `RunSchedule` of each class runs the threads under any schedule and yields a
run of the system.

Assumptions of the cache model: `gfs_send` sends all it is given, as `pr3/cache/gfserver.h:139-145`
says (`SharedCacheFailures` drops this for one send of a run), `pread` returns at least one byte
before the end of the file, and files do not change during a transfer.

Results that differ from what the code is meant to do:

* The proxy worker keeps the result of `gfs_send` in a `size_t`, so its test for failure sees 0 only.
  After a send that falls short, the segment comes back to the pool exactly if the result was 0, or
  -1 with nothing counted yet (`ComesBackExactlyWhen`); after any other result, partial sends and
  later -1 included, worker and segment are lost for good and the request is never answered
  (`LostForGood`), and the client gets a file with a hole (`LeavesAHole`). A segment that comes back can still be in use by its cache worker, which is not
  told, exactly if the failing chunk was not the last of the file (`ComesBackServedExactlyWhen`);
  `FailuresHappen` is a reachable state where all of this happens.
* A client whose first `recv` does not hold the whole header rejects a correct response
  (`ReceiveIsIndependentOfChunks` is an exact condition).
* The server of `pr1/gflib/gfserver.c` writes a space before the header's line breaks, and the client
  then takes the last line break for content. It never returns, or, exactly when a chunk happens to
  end at the announced length, reports success with a file that is shifted by one byte
  (`SpaceBeforeDelimiterShifts`, for every way of cutting the response). That file is the right one
  only if it is nothing but line feeds (`ShiftIsHarmlessExactlyFor`).
* A server worker leaves its loop for good at the first missing file. `AllServedExactlyWhen` says
  when requests are stranded for that reason.
* The worker's sending loop makes good a send that stops early, but does not end on a dead connection
  (`TransferRounds`). This supposes that SIGPIPE is ignored: no source file of the repository does
  so, `pr1/gflib/gfserver.c:42` sends with flags 0, and by default the second send on a closed
  connection ends the process instead.
* The download client hangs exactly when its request count is negative, which is not checked
  (`CompletesExactlyForCounts`).
* Segment names are distinct up to 100000 segments and no further (`NamesDistinctUpTo`).

## Model

| member | source | states |
|---|---|---|
| SharedCacheTheorems.ClientsGetTheirFiles | pr3/cache/handle_with_cache.c:95-119 | in every run and interleaving each client has a prefix of the file its own request named behind the right header, and every completed reply is exactly the file, or the not-found answer |
| SharedCacheTheorems.AnsweredOnce | pr3/cache/handle_with_cache.c:11-55 | no later step replaces the reply of a request |
| SharedCacheTheorems.SegmentsAreConserved | pr3/cache/handle_with_cache.c:26-32 | every segment is in the pool once or held by one proxy worker, never both, with at most one message or cache worker concerned with it and none when it is free |
| SharedCacheTheorems.StatusIsForThisRequest | pr3/cache/handle_with_cache.c:97-125 | the status and size a proxy worker reads are those of its own request, so the branch that would lose the segment is never taken |
| SharedCacheTheorems.PooledIsCleared | pr3/cache/handle_with_cache.c:129-137 | in every reachable state a segment in the pool has read_len and filesize 0, and after its first use the semaphores that sem_init sets |
| SharedCacheTheorems.QueueHoldsTen | pr3/cache/simplecached.c:128 | the message queue never holds more than ten messages, and a sender waits exactly at ten |
| SharedCacheQueues.QueuesKeepOrder | pr3/cache/handle_with_cache.c:26-43 | over every run the segments taken followed by the pool are the first pool followed by the segments given back; likewise messages received and sent, and requests taken up and handed in |
| SharedCacheQueues.BroadcastWakesEverybody | pr3/cache/handle_with_cache.c:32 | after a broadcast nobody sleeps, every former sleeper competes for the mutex, and the others are where they were |
| SharedCacheQueues.OtherStepsMoveNobodyElse | pr3/cache/handle_with_cache.c:11-55 | no other step of a worker moves another proxy worker |
| SharedCacheTheorems.OnlyTheCurrentServerWrites | pr3/cache/simplecached.c:195-221 | a cache worker's step changes a segment only while the proxy worker holding it waits for that very request |
| SharedCacheTheorems.FinishedServerOnlyLeaves | pr3/cache/simplecached.c:206-222 | after its last post a cache worker takes one more step, on locals only, whoever owns its old segment |
| SharedCacheTheorems.ReinitialisingChangesNothing | pr3/cache/handle_with_cache.c:40-42 | on a reused segment the three sem_init calls store the values already there |
| SharedCacheFailures.CompleteSendIsTheStep | pr3/cache/handle_with_cache.c:107-112 | a send whose result is read_len is the step of the system |
| SharedCacheFailures.AfterShortSend | pr3/cache/handle_with_cache.c:107-114 | after a short send the client has exactly the bytes that went out, and the count is t + r, or t - 1 modulo 2^64 for -1 |
| SharedCacheFailures.ComesBackExactlyWhen | pr3/cache/handle_with_cache.c:104-117 | after a result short of read_len, some continuation queues the segment again exactly if the result is 0, or -1 with nothing counted yet |
| SharedCacheFailures.LostForGood | pr3/cache/handle_with_cache.c:104-115 | after any other short result, in every continuation the worker stays in its loop with the segment and the request stays unanswered |
| SharedCacheFailures.LeavesAHole | pr3/cache/handle_with_cache.c:104-115 | in every continuation of such a send the client has the part that went out followed by the next chunks, with the rest of the short chunk missing |
| SharedCacheFailures.ComesBackServedExactlyWhen | pr3/cache/handle_with_cache.c:107-117 | some continuation queues the segment while a cache worker still serves it exactly if the result ends the loop and the chunk is not the last of the file |
| SharedCacheFailures.CutShort | pr3/cache/handle_with_cache.c:107-117 | in every continuation that queues the segment the client has what it had before the failing send; the segment is free of cache workers if the chunk was the last, and after a result of 0 only then |
| SharedCacheFailures.FailuresHappen | pr3/cache/handle_with_cache.c:104-117 | a reachable state where results of 0 and -1 strand a served segment and a result of 1 loses it |
| SharedCacheTheorems.OneTokenPerTransfer | pr3/cache/handle_with_cache.c:104-115 | for every segment whose request is out, the two semaphores, the cache worker storing and the proxy worker sending hold one token in all, also after the cache worker has posted for the last time |
| SharedCacheTheorems.AtMostOneChunkAhead | pr3/cache/simplecached.c:206-219 | the cache worker is at most one chunk ahead of what has been sent, and never past the file |
| SharedCacheTheorems.AnyChunkMayBeRead | pr3/cache/simplecached.c:209 | pread may return any count that fits buffer and file, and the buffer then holds the next bytes of the file that the waiting proxy worker's request names |
| SharedCacheTheorems.NoWakeupIsLost | pr3/cache/handle_with_cache.c:129-137 | a proxy worker sleeps beside a non-empty pool only while another one's broadcast is still to come |
| SharedCacheTheorems.StuckMeansAnswered | pr3/cache/simplecached.c:155-170 | a reachable state in which no worker can move has answered every request as promised |
| SharedCacheTheorems.RunsAreBounded | pr3/cache/handle_with_cache.c:26-52 | no run is longer than the measure of its first state and twice its spurious wakeups |
| SharedCacheTheorems.EveryMaximalRunAnswers | pr3/cache/simplecached.c:155-170 | however the workers are scheduled, a run from the initial state is bounded, and where no worker can move every request has been answered as promised |
| SharedCacheTheorems.EveryRunCanFinish | pr3/cache/handle_with_cache.c:26-52 | from every state satisfying the invariant some continuation answers every request |
| SharedCacheTheorems.RunExtends | pr3/cache/simplecached.c:155-170 | a run followed by an enabled step is a run with the expected end |
| SharedCacheProgress.NoDeadlock | pr3/cache/simplecached.c:128 | with a segment, a worker of each kind and the ten-slot queue, an unfinished state has a worker that can move |
| SharedCacheProgress.WaitingProxyIsServed | pr3/cache/handle_with_cache.c:97-105 | a proxy worker blocked on a semaphore has its message queued or somebody able to move |
| SharedCacheProgress.WaitingCacheIsServed | pr3/cache/simplecached.c:207 | a cache worker blocked for space has somebody able to move |
| SharedCacheProgress.ProxyFalls | pr3/cache/handle_with_cache.c:11-55 | every step of a proxy worker lowers the measure, broadcasts included |
| SharedCacheProgress.CacheFalls | pr3/cache/simplecached.c:155-224 | every step of a cache worker lowers the measure |
| SharedCacheSteps.StepInv | pr3/cache/simplecached.c:172-224 | every enabled step of any worker keeps the invariant |
| SharedCacheSteps.RequeueIsClean | pr3/cache/handle_with_cache.c:129-137 | when a segment is queued again nobody serves it, its semaphores are at their initial values, read_len and filesize are 0, and the whole file has been sent |
| SharedCacheSteps.PopStep | pr3/cache/handle_with_cache.c:26-31 | taking a segment keeps the invariant |
| SharedCacheSteps.ReceiveStep | pr3/cache/simplecached.c:160-166 | taking a message keeps the invariant |
| SharedCacheInvariant.InitInv | pr3/cache/handle_with_cache.c:58-93 | the state that initSharedMemory leaves satisfies the invariant, whatever the semaphores hold |
| SharedCacheInvariant.SendKeepsTransfer | pr3/cache/handle_with_cache.c:107-112 | sending a chunk extends the client's prefix by exactly the bytes read for it |
| SharedCacheInvariant.StoreKeepsTransfer | pr3/cache/simplecached.c:214-217 | copying the buffer puts exactly the next bytes of the file in the segment |
| SharedCacheInvariant.ProxyStepKeepsCopying | pr3/cache/handle_with_cache.c:129-132 | no step of the proxy worker disturbs the cache worker serving its segment |
| SharedCacheCluster.Cluster.constructor | pr3/cache/handle_with_cache.c:58-93 | creates the pool and idle workers in an initial state |
| SharedCacheCluster.Cluster.TakeSegment | pr3/cache/handle_with_cache.c:26-31 | the mutex region in place: sleeps on an empty pool, else takes its first segment |
| SharedCacheCluster.Cluster.Broadcast | pr3/cache/handle_with_cache.c:32 | wakes every sleeper and changes nobody else |
| SharedCacheCluster.Cluster.StepProxy | pr3/cache/handle_with_cache.c:11-139 | the next step of a proxy worker, whichever it is |
| SharedCacheCluster.Cluster.StepCache | pr3/cache/simplecached.c:155-224 | the next step of a cache worker, whichever it is |
| SharedCacheCluster.Cluster.RunSchedule | pr3/cache/simplecached.c:155-170 | under any schedule the in-place steps form a run of the system and keep the invariant |
| ClientPoolTheorems.NoWakeupIsLost | pr1/mtgf/gfclient_download.c:160-217 | queued work has an awake worker or the boss's signal ahead, and when all is done every sleeper has a broadcast ahead |
| ClientPoolTheorems.SignalWakesOne | pr1/mtgf/gfclient_download.c:172-210 | the boss's signal and a worker's signal after its pop wake the sleeper picked and nobody else, and nobody only if nobody sleeps |
| ClientPoolTheorems.AnySleeperMayBePicked | pr1/mtgf/gfclient_download.c:172-210 | any sleeper, boss or worker, may be the one |
| ClientPoolTheorems.BroadcastWakesEverybody | pr1/mtgf/gfclient_download.c:182-215 | after a broadcast nobody sleeps, and nobody who did not sleep is moved |
| ClientPoolTheorems.OtherStepsMoveNobodyElse | pr1/mtgf/gfclient_download.c:160-217 | any other step moves only the thread that takes it |
| ClientPoolTheorems.LoopsAreBounded | pr1/mtgf/gfclient_download.c:199 | in every run a worker inside its loop has a counter below nrequests |
| ClientPoolTheorems.EachRequestOnce | pr1/mtgf/gfclient_download.c:199-217 | issued is queued plus in progress plus done; the queue is in order of issue; no two workers have the same request |
| ClientPoolTheorems.FinishedStays | pr1/mtgf/gfclient_download.c:211-214 | a finished request is never taken again, in any continuation |
| ClientPoolTheorems.StuckMeansAllDone | pr1/mtgf/gfclient_download.c:175-188 | a reachable state in which no thread can move has every request finished and every worker joined |
| ClientPoolTheorems.RunsAreBounded | pr1/mtgf/gfclient_download.c:160-217 | no run is longer than the measure of its first state and twice its spurious wakeups |
| ClientPoolTheorems.EveryMaximalRunFinishes | pr1/mtgf/gfclient_download.c:160-217 | however the threads are scheduled, a run from the initial state is bounded, and where no thread can move all is done and joined |
| ClientPoolTheorems.EveryRunCanFinish | pr1/mtgf/gfclient_download.c:160-217 | every state satisfying the invariant has a continuation in which all is done and joined |
| ClientPoolTheorems.CompletesExactlyForCounts | pr1/mtgf/gfclient_download.c:110-112 | the client can complete exactly when nrequests is not negative |
| ClientPool.BoundMeansAllDone | pr1/mtgf/gfclient_download.c:199 | a worker whose loop bound is used up leaves no request behind |
| ClientPool.DoneBounds | pr1/mtgf/gfclient_download.c:178 | done is at most taken, issued and nrequests, and when it reaches nrequests nothing is queued or in progress |
| ClientPoolSteps.StepInv | pr1/mtgf/gfclient_download.c:160-217 | every step of boss and workers keeps the invariant, spurious wakeups included |
| ClientPoolSteps.SignalWakesWorker | pr1/mtgf/gfclient_download.c:172 | after the boss's signal queued work has an awake worker |
| ClientPoolProgress.NoDeadlock | pr1/mtgf/gfclient_download.c:175-188 | a state that is not complete has a thread that can move |
| DownloadPool.Pool.Step | pr1/mtgf/gfclient_download.c:160-217 | any enabled step in place, over the linked queue, keeps the invariant and is the step of the system |
| DownloadPool.Pool.RunSchedule | pr1/mtgf/gfclient_download.c:160-217 | under any schedule the in-place steps form a run of the system and keep the invariant |
| ServerPoolTheorems.PoolConservesWork | pr1/mtgf/gfserver_main.c:142-159 | while a worker sleeps, queued requests are at most the signals to come plus the awake idle workers |
| ServerPoolTheorems.SignalWakesOne | pr1/mtgf/gfserver_main.c:159 | the handler's and a worker's signal wake the sleeper picked and nobody else, and nobody only if nobody sleeps; the signaller goes on |
| ServerPoolTheorems.AnySleeperMayBePicked | pr1/mtgf/handler.c:34 | any sleeper may be the one |
| ServerPoolTheorems.OtherStepsMoveNobodyElse | pr1/mtgf/gfserver_main.c:142-200 | any other step of a worker moves no other worker |
| ServerPoolTheorems.FreedStays | pr1/mtgf/gfserver_main.c:195-198 | a freed request is not freed or taken again, in any continuation |
| ServerPoolTheorems.ServedInTheEnd | pr1/mtgf/gfserver_main.c:142-200 | when nothing can move, exactly the requests up to the one that costs the last worker have been taken and freed, in every schedule |
| ServerPoolTheorems.AllServedExactlyWhen | pr1/mtgf/gfserver_main.c:165-176 | nothing is left in the queue exactly if fewer requests than workers are bad, not counting the last |
| ServerPoolTheorems.RunsAreBounded | pr1/mtgf/gfserver_main.c:142-200 | no run is longer than the measure of its first state and twice its spurious wakeups |
| ServerPool.StepInv | pr1/mtgf/handler.c:21-37 | every step of boss and workers keeps the invariant |
| WorkerPool.Pool.Step | pr1/mtgf/gfserver_main.c:142-200 | any enabled step in place, over the linked queue, keeps the invariant and is the step of the system |
| WorkerPool.Pool.RunSchedule | pr1/mtgf/gfserver_main.c:142-200 | under any schedule the in-place steps form a run of the system and keep the invariant |
| Steque.Steque.Enqueue | pr3/cache/steque.c:26-40 | appends to the sequence the chain stands for |
| Steque.Steque.Push | pr3/cache/steque.c:42-54 | prepends to it |
| Steque.Steque.Pop | pr3/cache/steque.c:64-84 | removes and returns the first item, or reports the underflow |
| Steque.Steque.Cycle | pr3/cache/steque.c:86-94 | moves the first item to the back with the same nodes, also for one node |
| Steque.Steque.Front | pr3/cache/steque.c:96-104 | returns the first item, or reports the underflow |
| Steque.Steque.Destroy | pr3/cache/steque.c:106-109 | ends with an empty list |
| Steque.Steque.RunAll | pr3/cache/steque.c:20-109 | any sequence of operations, init and the questions included, has the effect and the answers of the sequence model |
| Steque.FirstInFirstOut | pr3/cache/steque.c:26-84 | when nothing but enqueue inserts and nothing is rotated or dropped, what has left followed by what is queued is what entered, in order |
| Steque.ItemsAreConserved | pr3/cache/steque.c:26-104 | no operation but init and destroy loses or duplicates an item |
| Steque.CyclesRotate | pr3/cache/steque.c:86-94 | k cycles rotate by k |
| Steque.LastInFirstOut | pr3/cache/steque.c:42-84 | a pop after a push takes back what was pushed and leaves the rest |
| Steque.FrontForetellsPop | pr3/cache/steque.c:64-104 | front answers what a pop would and changes nothing |
| Steque.CycleRequeuesFirst | pr3/cache/steque.c:86-94 | cycle is a pop followed by an enqueue of the item popped |
| Steque.CycleOfNothing | pr3/cache/steque.c:86-94 | cycle changes nothing when a pop would underflow |
| Steque.SizeCounts | pr3/cache/steque.c:56-62 | size and isempty answer what was there and put in less what has left |
| Steque.ForgettingEmpties | pr3/cache/steque.c:20-109 | after init or destroy a pop underflows |
| SimpleCache.ZeroMeansEqual | pr3/cache/simplecache.c:31-33 | strcmp is 0 exactly for equal keys |
| SimpleCache.OrderIsLexicographic | pr3/cache/simplecache.c:31-33 | strcmp is negative exactly if the first string is a proper prefix of the second or has the smaller character at the first difference |
| SimpleCache.AtMostIsTransitive | pr3/cache/simplecache.c:31-33 | the order of strcmp is transitive |
| SimpleCache.OppositeSigns | pr3/cache/simplecache.c:31-33 | swapping the arguments of strcmp swaps the sign |
| SimpleCache.Index.Load | pr3/cache/simplecache.c:48-70 | the table holds the lines read, in order, with every write inside a capacity that doubles only when it is full; it fails exactly if some file cannot be opened |
| SimpleCache.Index.Double | pr3/cache/simplecache.c:65-68 | doubles the capacity and keeps the entries |
| SimpleCache.Index.Init | pr3/cache/simplecache.c:38-77 | leaves a permutation of the lines sorted by the order of strcmp |
| SimpleCache.Index.Bisect | pr3/cache/simplecache.c:80-99 | on the sorted table, -1 exactly if the key is absent, else a descriptor of that key |
| SimpleCache.Index.Get | pr3/cache/simplecache.c:79-100 | the same for the lines of the file, and the answer of a linear scan when keys are unique |
| SimpleCache.GetAgreesWithScan | pr3/cache/simplecache.c:79-100 | an answer right for the table is right for the file |
| SimpleCache.ArrangeSorts | pr3/cache/simplecache.c:74 | a sorted arrangement always exists |
| Transfer.SendFile | pr1/transfer/transferserver.c:32-52 | on return the whole file was written, no send failed and enough reads succeeded; on exit a prefix of it, with the exit status of the failing call |
| Transfer.GfsSend | pr1/gflib/gfserver.c:38-48 | returns how many bytes went out, all of them unless a send failed, and stops at the first failing one |
| Transfer.TransferRounds | pr1/mtgf/gfserver_main.c:181-193 | with sends failing in any rounds, the wire always holds the file's first total_bts_sent bytes, all of it when the loop is left; the loop is left as soon as the announced length has gone out, so at most one buffer goes out past it, and after as many rounds as the file has bytes and sends have failed, but never on a dead connection |
| GetfileClient.Request.Receive | pr1/gflib/gfclient.c:138-231 | the receive loop has the outcome of the reference definition for every sequence of chunks |
| GetfileClientTheorems.ReceiveIsIndependentOfChunks | pr1/gflib/gfclient.c:150-231 | a documented response, complete or cut short, gives its exact content, count and code for every split whose first chunk holds the header, and is rejected for every other |
| GetfileClientTheorems.SameStreamSameOutcome | pr1/gflib/gfclient.c:150-231 | two splits of one response give the same outcome |
| GetfileClientTheorems.TooMuchContent | pr1/gflib/gfclient.c:219-230 | with more content than announced the client succeeds if a chunk ends at the announced length and otherwise never returns |
| GetfileHeader.AnswerWithoutLength | pr1/gflib/gfclient.c:176-207 | the outcome for every first line with a status word of at most 15 characters and no number behind it, whatever blanks, breaks and text surround it |
| GetfileHeader.ServersAnswer | pr1/gflib/gfserver.c:53-64 | the repository's own answers for a missing file and for an error end the transfer with that status and code 0 |
| GetfileHeader.AnswerWithLength | pr1/gflib/gfclient.c:182-195 | a number behind the status word is accepted with OK alone, as %zu reads it: saturating at 2^64 - 1 and negated by a minus sign |
| GetfileHeader.NoAnswer | pr1/gflib/gfclient.c:160-163 | nothing received is an error of the server, reported as 0 |
| GetfileHeader.BothAreNeeded | pr1/gflib/gfclient.c:166-169 | a first chunk without GETFILE or without the delimiter is invalid |
| GetfileHeader.OtherScheme | pr1/gflib/gfclient.c:182-210 | a first line that does not begin with GETFILE is invalid, even if the text contains it |
| GetfileHeader.NoStatus | pr1/gflib/gfclient.c:182-210 | a first line without a status word is invalid |
| GetfileHeader.NothingBehindNul | pr1/gflib/gfclient.c:166-182 | what comes after the first NUL of the first chunk does not matter for its header |
| GetfileClientTheorems.SpaceBeforeDelimiterShifts | pr1/gflib/gfserver.c:57-61 | a response with a space before the line breaks, for every split: rejected if the first chunk cuts the header; otherwise the client never returns unless a chunk ends at the announced length, and then reports success with the content shifted by one byte |
| GetfileClientTheorems.ShiftIsHarmlessExactlyFor | pr1/gflib/gfclient.c:209-218 | the shifted content is the file exactly if the file is nothing but line feeds |
| GetfileClientTheorems.SuccessWithTheWrongFile | pr1/gflib/gfclient.c:219-231 | a reply in two chunks for which the client reports success with the wrong file |
| GetfileClientTheorems.WholeReplyInOneChunkSpins | pr1/gflib/gfclient.c:150-153 | a reply that fits one recv of 512 bytes and comes in one chunk keeps the client from returning |
| GetfileHeader.HeaderIsAccepted | pr1/gflib/gfclient.c:166-195 | a whole header is recognised with the length it announces |
| GetfileHeader.PartialHeaderIsRejected | pr1/gflib/gfclient.c:166-170 | a proper non-empty prefix of a header, with or without the space, is called invalid |
| Decimal.ValueOfPrint | pr1/gflib/gfclient.c:182 | reading a printed number gives the number |
| Decimal.PrintLength | pr3/cache/handle_with_cache.c:65 | a number prints in at most k digits exactly below 10^k |
| Decimal.DigitAt | pr3/cache/handle_with_cache.c:65 | the digit i places from the right is n divided i times by ten, modulo ten, and there are no leading zeros |
| SegmentNames.NamesDistinctUpTo | pr3/cache/handle_with_cache.c:63-82 | the names of the first `count` segments are distinct exactly up to 100000 |
| SegmentNames.NamesAre | pr3/cache/handle_with_cache.c:64-65 | a name is Shm_ and the number, of which five digits are kept |
| SegmentNames.SixDigitsCollide | pr3/cache/handle_with_cache.c:64-65 | segments 100000 and 10000 share a name |

## Left out

- A second send that falls short in the same run: `SharedCacheFailures` follows one, with any later send complete.
- What `gfs_send` may have sent before returning -1: taken to be nothing.
- System calls and set-up: sockets, option parsing, signal handlers, logging, `mmap`, `shm_open` and `mq_open` failures have no logic of their own.
- Errors of `pread` and `recv` (a result of -1): stored in unsigned fields or used as lengths, they leave defined C behaviour.
- The break of the cache's copying loop on a `pread` of 0 bytes: the assumption on `pread` excludes it before the end of the file.
- Segment names as keys: a cache worker reaches a segment by number; `NamesDistinctUpTo` says when the name does the same.
- Truncation of request paths by `strncpy` and of index lines by `fgets`: paths and keys are strings of any length.
- `pthread_cond_signal` waking more than one sleeper: covered by the spurious wakeups in the safety results.
- The web server that hands requests to proxy workers is not part of this model; requests reach idle workers in any order of workers.
- The delay in `simplecache_get` and the file positions set by `lseek`: no other code depends on them.
- `qsort`: its result is a parameter, any sorted arrangement of the table.
- The counter N of a steque is a natural number; more than 2147483647 items would overflow the C int.
- GetfileClient.Request.Receive: for a first chunk shorter than the header the client rebuilds, where C subtracts below zero, it only reports `short`.
- A response header whose status word is longer than 15 characters, which overflows the client's buffer.
- The unsynchronised path counter and return code of the download client, outside its pool.
- The server's request keeps a pointer into the boss's receive buffer; the pool model has requests by number.
- The client's request-sending loop, the echo programs, `transferclient.c`, the workload readers and the libcurl handler: I/O around loops already covered.
- `pr4`: the generated code is not part of the repository, and the visible part copies chunks.
- The copies of `steque.c` and `content.c` in other directories.
