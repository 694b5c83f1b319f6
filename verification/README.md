# Streamer read pipeline: a Dafny model

This project models the path a read takes through the streamer, and proves what each stage promises the
next. It has five parts.

* **The plan.** `Submission` turns the caller's flat arrays into ranges; `Coalescing` merges adjacent ranges
  into transfers; `WorkDivision` divides transfers among workloads; `Batches` cuts them at slice and chunk
  boundaries; `ChunkSplitter` groups the pieces into backend reads; `LastCell` says of the request which
  ranges break that; `ReadPlan` puts the stages together and shows that running the plan is copying each
  range on its own.
* **The answers.** `BatchExecution` reads one batch into host memory or onto a device, with failures and the
  stop flag at any point; `Deeds` is the trail of what others see it do; `Responses` counts a range's tasks
  down from many threads; `Answering` joins plan, readers and countdown: every range is answered exactly once,
  and Success means that its bytes are there.
* **The engines.** `IoLedger` is the accounting an engine owes its caller; `LibaioEngine` and `IoUringEngine`
  keep it against a kernel that takes any prefix, refuses any head and finishes anything in any order.
* **The queues and threads.** `ResponderQueue`, `WorkerPool`, `DrainingWorker` and `CapacityWindow`.
* **The helpers.** `SplitJoin` (GCS and Azure), `RetrySchedule`, and `DirectReads` (alignment and the ladder
  of trial reads).

Code that changes state step by step is modelled by classes and loops with contracts; code in which threads
meet is a state machine whose steps are the sections between its locks, atomics and semaphores, and the
theorems are about every run of it. The kernel, files, devices, allocators and backends are environments that
may do anything their interface allows. `Sequences`, `ReadTypes` and `Machine` hold what the parts share.
`dafny verify dfyconfig.toml` checks the whole project.

## Conditions found

Some promises hold only under a condition, which the named members state exactly.

* Merging compares sums of offsets and addresses that wrap at 2^64. It is right if and only if no range starts,
  in the file and in memory, where the wrapped end of the one before it points (`Coalescing.Coalesce`);
  `Coalescing.WrapMerges` is a request it accepts and merges wrongly.
* The end of the last cell of the chunk grid wraps to a small number, and the splitter's task index is an
  `unsigned`. An assert fires if and only if an empty task follows one that opened a chunk in the last cell, or
  there are 2^32 tasks (`ChunkSplitter.SplitIntoChunks`). Of a request, the first is so if and only if in some
  file an empty range continues the range before it, and that one has bytes and its last byte in the last cell,
  or is empty, in the last cell, and continues none itself (`LastCell.TripsAsRequest`). The second depends on
  how transfers are divided: a slice of 2^32 chunks of bytes has too many tasks (`Batches.LongSliceCrowds`),
  and a request whose ranges and chunks of bytes together stay below 2^32 has no such slice
  (`Batches.FewTasks`, `ReadPlan.PlanReads`). `ReadPlan.LastCellFails` and `ReadPlan.TooManyTasks` are requests
  that fail, at every chunk size and at every one below 2^32.
* The device reader counts its blocks in `unsigned`s. For as many as they count it waits for every copy and
  answers every task (`BatchExecution.Batch.ReadToDevice`); beyond, it waits for too few.
* A request counts its tasks in an `unsigned`. A range has exactly one response if and only if it has no more
  than 2^32 of them, and one for every 2^32 begun otherwise (`Responses.ExactlyOneResponse`,
  `Answering.EveryRangeAnsweredOnce`).
* `try_take` adds the cost to the bytes in flight without a check, and can take an item the window has no
  room for when the sum wraps (`CapacityWindow.TestExact`); a queue is made to in `CapacityWindow.WrapTakes`.
* The responder's outstanding count is an `unsigned`, checked for each submission but not for their sum. A
  count that passes 2^32 makes a queue that owns its end call itself drained (`ResponderQueue.WrapDrains`), or
  leaves a consumer waiting for nothing (`ResponderQueue.WrapStrands`); below that neither happens
  (`ResponderQueue.DrainedMeansAll`, `ResponderQueue.NoLostWakeup`).
* The split-and-join counter is an `unsigned` built from a `size_t`. The join is right if and only if there are
  no more than 2^32 pieces (`SplitJoin.JoinRightUpTo`); the loop that launches them, whose index is an
  `unsigned` too, ends by itself if and only if there are fewer (`SplitJoin.Split`). A stop that leaves pieces
  unlaunched while the others succeed leaves the range unanswered, which `SplitJoin.ExactlyOne` states as an
  if-and-only-if.
* A retry count that wraps to zero lets an attempt begin past its deadline, and nothing else does
  (`RetrySchedule.ObjectStorageRetry.BeginAttempt`); `RetrySchedule.WrapAllowsLate` gets there.
* After its stop flag is raised a pool hands on only messages whose thread had read the flag before, one a
  thread at most (`WorkerPool.OnlyCheckedWork`); such a message it can hand on (`WorkerPool.FlagBetween`).

Where the code and its comments differ, the model follows the code.

* `cpp/posix_io/io_engine/io_engine.h:232-240` says `out_deferred` is true when work was offered and some of
  it refused. After a refused head, libaio's flush leaves reads staged and returns it false
  (`LibaioEngines.LibaioEngine.Flush`).
* `cpp/utils/draining_worker/draining_worker.h:72` calls `stop` safe to call more than once. It is, but only
  the call that finds the worker not stopped waits for it; another returns at once. The theorems are about the
  call that waits.

## Model

| member | source | states |
|---|---|---|
| `Submission.SubmitRequest` | cpp/streamer/streamer.cc:35-104 | which submissions are refused and with which code, in the order of the checks: a CUDA device with a negative id, a device type outside the enum, and malformed arrays each if and only if; anything else is accepted and transposed |
| `Submission.Transpose` | cpp/streamer/streamer.cc:79-97 | file i gets its path and exactly its own stretch of the flat arrays; a null path refuses the whole request |
| `Submission.FlattenTransposed` | cpp/streamer/streamer.cc:79-97 | round trip: the k-th range in file order is the k-th entry of the flat arrays |
| `Submission.TransposeUnique` | cpp/streamer/streamer.cc:79-97 | the arrays allow only one transposed request |
| `Coalescing.Coalesce` | cpp/streamer/impl/assigner/assigner.cc:59-131 | on any request: refused if and only if the bytes do not add up in a size_t; otherwise the transfers, told apart again, are exactly the ranges in order, with no two neighbours left to merge, if and only if no range starts where the wrapped end of the one before it points; either way as many ranges and bytes come out as went in |
| `Coalescing.CoalesceFile` | cpp/streamer/impl/assigner/assigner.cc:59-131 | one file adds as many ranges and bytes as it has, and exactly its own ranges if and only if what came before was right and none of its ranges is hit by a wrapped end; the running total is exact |
| `Coalescing.CoalesceRange` | cpp/streamer/impl/assigner/assigner.cc:59-131 | one range of that size is added; it is the range given unless the wrapped end of the one before hits it, and then it is another |
| `Coalescing.AdjacentExact` | cpp/streamer/impl/assigner/assigner.cc:59-131 | the machine's adjacency test is the exact one if and only if no wrapped sum matches |
| `Coalescing.WrapMerges` | cpp/streamer/impl/assigner/assigner.cc:59-131 | a request of two ranges that the pass accepts and merges wrongly |
| `WorkDivision.DivisionExact` | cpp/streamer/impl/assigner/assigner.cc:356-377 | the targets add up to the group, the first workload's extra is below one block a workload, and no workload of several is left without bytes |
| `WorkDivision.StateAdvances` | cpp/streamer/impl/assigner/assigner.cc:219-288 | handing one more piece of the current transfer to a workload keeps the division: pieces tile the transfer, go to ever later workloads, and lie inside the stretch of the group their workload owns |
| `WorkDivision.AllServed` | cpp/streamer/impl/assigner/assigner.cc:219-288 | workloads and transfers run out together: every computed workload is used and every byte placed |
| `WorkDivision.Assigner.AssignPiece` | cpp/streamer/impl/assigner/assigner.cc:219-288 | one pass gives the workload as much of the transfer as both still allow, and always moves on |
| `WorkDivision.Assigner.AssignSlot` | cpp/streamer/impl/assigner/assigner.cc:219-288 | a workload is given exactly its target, with transfers of no bytes still getting their one piece |
| `WorkDivision.Assigner.AssignGroup` | cpp/streamer/impl/assigner/assigner.cc:219-288 | one group is divided completely; other groups' transfers and other workloads are untouched; the group's workloads have their targets and its id |
| `WorkDivision.Assigner.CollectGroups` | cpp/streamer/impl/assigner/assigner.cc:140-170 | each transfer and its bytes are filed under its own group, none missing |
| `WorkDivision.GroupAssigned` | cpp/streamer/impl/assigner/assigner.cc:140-217 | dividing one more group leaves what was divided before as it was |
| `WorkDivision.AllBytesAssigned` | cpp/streamer/impl/assigner/assigner.cc:200-214 | the two verification asserts: bytes assigned are bytes requested, transfer by transfer and in all |
| `WorkDivision.SlicesPerTransfer` | cpp/streamer/impl/assigner/assigner.cc:219-288 | no transfer is divided among more workloads than there are workers |
| `WorkDivision.Assigner.Assign` | cpp/streamer/impl/assigner/assigner.cc:140-217 | every transfer is fully divided among workloads of its own group, at most one slice to each and in workload order; the synchronous group's workloads come first with their targets, then one workload for each async group in ascending order; the byte counts add up to the request |
| `Batches.BatchItr.Consume` | cpp/streamer/impl/batches/batches.cc:70-87 | hands out at most what was asked, less only at a slice's end, never nothing when something was asked, and moves the cursor by just that |
| `Batches.CutRange` | cpp/streamer/impl/batches/batches.cc:184-228 | the pieces of a range tile it, each inside one slice and one chunk cell and cut only where one of these or the range ends; a range of no bytes still gets one |
| `Batches.HandleRequest` | cpp/streamer/impl/batches/batches.cc:184-228 | the request counts its own tasks and each of them is appended to its slice's batch |
| `Batches.KeyedTiling` | cpp/streamer/impl/batches/batches.cc:125-228 | tasks that tile a span, each wholly inside or outside an interval by its key, still tile the interval once selected by key: why the per-batch and per-range views both stay contiguous |
| `Batches.SliceTiles` | cpp/streamer/impl/batches/batches.cc:125-182 | a batch's tasks tile exactly its slice |
| `Batches.SliceNotEmpty` | cpp/streamer/impl/batches/batches.cc:157-176 | no batch is left without tasks, so the skipped-batch branch is dead |
| `Batches.BuildTasks` | cpp/streamer/impl/batches/batches.cc:125-182 | for a transfer that ends by the largest offset: throws if and only if its ranges trip the splitter's second assert or some slice has 2^32 tasks; otherwise one batch for every slice, whose tasks tile it, stay on the chunk grid, advance in step with the buffer, and are grouped into chunks; each range's tasks are one exact cut of it |
| `Batches.TripsAsRanges` | cpp/streamer/impl/chunk_splitter/chunk_splitter.cc:62-83 | some slice's tasks trip the second assert if and only if the transfer's ranges do, however it is divided: an empty range in the last cell after one that opened a chunk there |
| `Batches.FewTasks` | cpp/streamer/impl/batches/batches.cc:184-228 | a slice has at most a task for each range of its transfer, one for each chunk of its bytes, and two |
| `Batches.LongSliceCrowds` | cpp/streamer/impl/batches/batches.cc:184-228 | a slice of 2^32 chunks of bytes or more has 2^32 tasks |
| `ChunkSplitter.SplitIntoChunks` | cpp/streamer/impl/chunk_splitter/chunk_splitter.cc:21-92 | with the chunk end in 64 bits and the task index in 32: an assert fires if and only if an empty task follows one that opened a chunk in the last cell of the grid, or there are 2^32 tasks; otherwise the result is a correct grouping of whole tasks |
| `ChunkSplitter.ChunksCoverBatch` | cpp/streamer/impl/chunk_splitter/chunk_splitter.cc:21-92 | every byte of the batch is in exactly one chunk and no chunk holds any other byte |
| `ChunkSplitter.TaskInOneChunk` | cpp/streamer/impl/chunk_splitter/chunk_splitter.cc:21-92 | every task with bytes belongs to exactly one chunk, with all its bytes |
| `ChunkSplitter.ChunksApart` | cpp/streamer/impl/chunk_splitter/chunk_splitter.cc:31-91 | chunks never overlap |
| `ChunkSplitter.ChunkCount` | cpp/streamer/impl/chunk_splitter/chunk_splitter.cc:31-40 | at most span / chunk + 2 chunks for a batch that ends before the last cell: the reservation holds |
| `ReadPlan.VerifyRequests` | cpp/streamer/impl/streamer/streamer.cc:536-552 | throws if and only if some range has bytes and no destination |
| `ReadPlan.PlanReads` | cpp/streamer/impl/streamer/streamer.cc:240-390 | on any request: refused if and only if a range of bytes has no destination, the ranges cannot be counted, or their bytes cannot be added up. Where every range ends by the largest offset and address: if it returns workloads they hold a complete plan, no range trips the last cell, no slice has 2^32 tasks, and no transfer more slices than there are workers; if it fails, a range trips the last cell or a slice of the request's own transfers has 2^32 tasks; and with fewer ranges and chunks of bytes than 2^32 it fails if and only if it is not refused and a range trips the last cell |
| `ReadPlan.LastCellFails` | cpp/streamer/impl/chunk_splitter/chunk_splitter.cc:62-83 | two empty ranges at the largest offset: a request that is not refused and fails all the same, whatever the chunk size |
| `LastCell.TripsAsRequest` | cpp/streamer/impl/assigner/assigner.cc:59-131 | some merged transfer trips the last cell if and only if, in some file, an empty range continues the range before it, and that one has bytes and ends inside the last cell, or is empty, begins there and continues none before it |
| `ReadPlan.TooManyTasks` | cpp/streamer/impl/chunk_splitter/chunk_splitter.cc:26-83 | one range of 2^32 chunks and one worker: a request that is not refused, trips no last cell and fails all the same, for every chunk size below 2^32 |
| `ReadPlan.AddBatches` | cpp/streamer/impl/workload/workload.cc:33-50 | every batch goes to its own workload, in the order the batches were made |
| `ReadPlan.TransferBytes` | cpp/streamer/impl/batches/batches.cc:125-182 | the chunks of a transfer's batches deliver each byte of its span once, to its place in the buffer |
| `ReadPlan.BytesConserved` | cpp/streamer/impl/streamer/streamer.cc:352-394 | for every file byte and address, the number of backend reads bringing that byte there is the number of ranges asking for it |
| `ReadPlan.RunsAsNaiveCopy` | cpp/streamer/impl/streamer/streamer.cc:352-394 | the plan refines the naive copy: for non-overlapping destinations, the chunks in any order leave every address of memory as copying each range alone would |
| `ReadPlan.OutsideDestinations` | cpp/streamer/impl/streamer/streamer.cc:352-394 | no address outside the destinations is written |
| `ReadPlan.EveryRangeOwed` | cpp/streamer/impl/batches/batches.cc:184-228 | each range, of no bytes or many, has one request that repeats it as given and counts, in 32 bits, the tasks that carry it over all workloads; there is at least one |
| `ReadPlan.EveryByteBrought` | cpp/streamer/impl/batches/batches.cc:184-228 | every byte of every range is brought to its place by a task of that range, in some batch |
| `ReadPlan.BatchesApart` | cpp/streamer/impl/streamer/streamer.cc:352-394 | for non-overlapping destinations no address is written by two batches |
| `ReadPlan.OneGroupPerWorkload` | cpp/streamer/impl/assigner/assigner.cc:290-298 | a workload only holds batches of files of its own pool group |
| `Responses.StepKeepsInv` | cpp/streamer/impl/request/request.cc:26-35 | store, countdown and push, each atomic, keep the accounting of every range whatever thread steps; the countdown is what waits, in 32 bits |
| `Responses.AtMostOneHonestResponse` | cpp/streamer/impl/batch/batch.cc:97-124 | at every moment of every interleaving a range of up to 2^32 tasks has at most one response; Success only if no batch failed a part of it, an error only if one did |
| `Responses.ExactlyOneResponse` | cpp/streamer/impl/request/request.cc:26-35 | once all batches are through a range has one response for every 2^32 of its tasks begun: exactly one if and only if it has no more than that; that one is Success if and only if every task of it succeeded |
| `Responses.NeverStuck` | cpp/streamer/impl/request/request.cc:26-35 | a thread with tasks left can always step: answering waits for nobody |
| `Responses.RunBounded` | cpp/streamer/impl/request/request.cc:26-35 | every interleaving ends after at most three steps a task |
| `Answering.PlanIsSystem` | cpp/streamer/impl/batches/batches.cc:184-228 | the batches of a plan, each run to its end, finish every task exactly once and give every range a task |
| `Answering.CountIsOwed` | cpp/streamer/impl/batches/batches.cc:184-228 | the tasks that answer for a range over all batches are those its request was made to count |
| `Answering.EveryRangeAnsweredOnce` | cpp/streamer/impl/batch/batch.cc:56-124 | from plan to answers: every range the caller gave gets a response, exactly one if and only if its request can count its tasks, and that one is Success exactly when no batch failed a task of it |
| `Answering.ReadPlanned` | cpp/streamer/impl/batch/batch.cc:56-95 | a batch of a plan meets the conditions of its reader; what the reader does is a trail of writes inside the batch's destination and of answers, each Success after the writes of all its task's bytes; the trail makes the memory after of the memory before, and answers every task once, on a device for as many blocks as an unsigned counts |
| `Answering.DeedKeepsBytes` | cpp/streamer/impl/batch/batch.cc:56-124 | for non-overlapping destinations, whatever one reader does, the bytes the others have written stay |
| `Answering.MoveKeepsSane` | cpp/streamer/impl/batch/batch.cc:56-124 | every write of any reader and every atomic step of any answer keeps: the written bytes are there, nothing is reported before its reader told it, and the countdown is right |
| `Answering.AnsweredMeansRead` | cpp/streamer/impl/batch/batch.cc:56-124 | at every moment of every interleaving of the readers' trails and of the atomic steps of their answers, a range answered with Success has every one of its bytes at its place in its destination |
| `BatchExecution.Batch.FinishTask` | cpp/streamer/impl/task/task.cc:31-41 | finishing is idempotent, and Success is only told with all the task's bytes written |
| `BatchExecution.Batch.FinishedUntil` | cpp/streamer/impl/batch/batch.cc:343-361 | answers with Success the tasks from the cursor on that end at or before the offset, each once, and no other; the cursor stops at the first that ends later |
| `BatchExecution.Batch.HandleError` | cpp/streamer/impl/batch/batch.cc:97-124 | every task not finished yet fails with the error, finished ones keep their answer, and Success does nothing |
| `BatchExecution.Batch.HandleResponse` | cpp/streamer/impl/batch/batch.cc:314-340 | completions in any order: a success, its bytes written, answers its own task once; a failure answers nothing and ends the batch with its code |
| `BatchExecution.SourceFile.Read` | cpp/streamer/impl/file/file.cc:48-71 | all bytes asked for, or one of two errors and a prefix of them; nothing outside the buffer is written |
| `BatchExecution.Batch.ReadBlocks` | cpp/streamer/impl/batch/batch.cc:127-182 | the two cursors stay in step; what was answered is backed by bytes at every exit of the loop |
| `BatchExecution.Batch.Read` | cpp/streamer/impl/batch/batch.cc:127-182 | whatever fails and whenever the flag is raised, Success answers end at or before the bytes delivered; the reader ends with Success only with everything read and answered, and otherwise only with the file's own error or a raised flag |
| `BatchExecution.DeviceStream.Retire` | cpp/streamer/impl/batch/batch.cc:240-262 | a completion moves the landed count only while none before it failed; the first failure is the one kept |
| `BatchExecution.Batch.LandedPrefix` | cpp/streamer/impl/batch/batch.cc:184-291 | the blocks counted as landed, earlier and now, have written exactly the bytes of the range up to there |
| `BatchExecution.Batch.FillBuffer` | cpp/streamer/impl/batch/batch.cc:228-253 | a staging buffer is held only if the read into it succeeded; a failed read gives it back; only the pool's buffers are written |
| `BatchExecution.Batch.ReadToDevice` | cpp/streamer/impl/batch/batch.cc:184-312 | for as many blocks as an unsigned counts no copy is outstanding at any exit and a failed copy anywhere fails the batch; no buffer is kept, and Success is told only for bytes on the device, for any number |
| `BatchExecution.Batch.Execute` | cpp/streamer/impl/batch/batch.cc:56-95 | every task is finished exactly once; each Success has its bytes at its destination, written before it was told; failures carry the batch's one error, which is a real one: of the file, the pool, the device, the flag, or a target it cannot serve; no memory changes but the destination and, for a device, the host's staging buffers; on a device, tasks left and copies outstanding only with more blocks than an unsigned counts |
| `Deeds.ReplayBrings` | cpp/streamer/impl/batch/batch.cc:127-182 | the writes of a sound trail bring each address its own byte of the file and touch no address outside the destination |
| `Deeds.ToldIsCovered` | cpp/streamer/impl/batch/batch.cc:343-361 | of a sound trail of writes and answers: a task answered with Success had every one of its addresses written before |
| `IoLedger.CountIsExact` | cpp/posix_io/io_engine/io_engine.h:187-242 | out_issued minus completions reaped equals reads the kernel holds plus refusals not collected; zero means neither |
| `IoLedger.OneAnswerEach` | cpp/posix_io/io_engine/io_engine.h:187-242 | each read is in exactly one of: staged, with the kernel, refused, answered; it is answered at most once and only after a flush counted it |
| `LibaioEngines.SetupContext` | cpp/posix_io/libaio_engine/libaio_engine.cc:72-109 | the context granted is the first halving of the wanted size not turned away with EAGAIN; no context if and only if there is none such |
| `LibaioEngines.FlushedInOrder` | cpp/posix_io/libaio_engine/libaio_engine.cc:236-381 | a flush keeps the stage order, and counts exactly the reads that left the queue |
| `LibaioEngines.LibaioEngine.BlocksConserved` | cpp/posix_io/libaio_engine/libaio_engine.cc:203-381 | free, pending and kernel-held control blocks are disjoint and total the depth |
| `LibaioEngines.LibaioEngine.Stage` | cpp/posix_io/libaio_engine/libaio_engine.cc:203-234 | refused only without a free block; the only id written is the free block's, never one the kernel holds |
| `LibaioEngines.LibaioEngine.RefuseHead` | cpp/posix_io/libaio_engine/libaio_engine.cc:298-346 | the refused head alone is taken out, answered and counted, and its block is free again |
| `LibaioEngines.LibaioEngine.Flush` | cpp/posix_io/libaio_engine/libaio_engine.cc:236-381 | the kernel took a prefix of the staged reads, in order, and refused at most one more; these are what is counted; the rest stays staged, and only because the kernel's last answer was to wait or a refusal |
| `LibaioEngines.LibaioEngine.WaitForCompletions` | cpp/posix_io/libaio_engine/libaio_engine.cc:383-496 | refusals first and without waiting, else any reads the kernel finished; each gives its block back and lowers the caller's count by one |
| `LibaioEngines.LibaioEngine.WindowLeavesBlock` | cpp/posix_io/libaio_engine/libaio_engine.cc:203-220 | with no more than depth staged and outstanding there is always a free block |
| `LibaioEngines.LibaioEngine.ZeroMeansFree` | cpp/posix_io/io_engine/io_engine.h:222-242 | a caller count of zero means the kernel holds no control block |
| `IoUringEngines.IoUringEngine.RegisteredIndex` | cpp/posix_io/io_uring_engine/io_uring_engine.cc:177-254 | an index if and only if the kernel holds the region; a region is asked for at most once, and a ring that cannot have a table never again |
| `IoUringEngines.IoUringEngine.Stage` | cpp/posix_io/io_uring_engine/io_uring_engine.cc:256-308 | refused only when the ring is full; a fixed read if and only if the whole read lies inside a region the kernel holds |
| `IoUringEngines.IoUringEngine.Flush` | cpp/posix_io/io_uring_engine/io_uring_engine.cc:310-385 | one submit, and its answer decides count, deferral and code: what is reported left the queue, in order; a count that cannot be true is clamped and ends the engine |
| `IoUringEngines.IoUringEngine.WaitForCompletions` | cpp/posix_io/io_uring_engine/io_uring_engine.cc:387-485 | takes what is ready, all of it or max, in completion order; with the window kept no completion has ever been dropped |
| `IoUringEngines.IoUringEngine.WindowLeavesEntry` | cpp/posix_io/io_uring_engine/io_uring_engine.cc:266-281 | with the window kept there is always a submission entry |
| `IoUringEngines.IoUringEngine.ZeroMeansFree` | cpp/posix_io/io_engine/io_engine.h:222-242 | a caller count of zero means the kernel holds no read, even after a submit that broke its word or a dropped completion |
| `ResponderQueue.StepKeepsInv` | cpp/common/shared_queue/shared_queue.h:134-269 | every lock section and semaphore operation of every method keeps the token accounting |
| `ResponderQueue.TokensMatch` | cpp/common/shared_queue/shared_queue.h:142-227 | before stop: queue length is semaphore value plus posts owed plus the token the consumer holds |
| `ResponderQueue.PopNeverEmpty` | cpp/common/shared_queue/shared_queue.h:142-185 | the emptiness assert never fires, and pop takes the oldest response |
| `ResponderQueue.DrainedMeansAll` | cpp/common/shared_queue/shared_queue.h:152-160 | a drained queue has given out every response queued; and every response announced, if and only if no more are outstanding than an unsigned holds |
| `ResponderQueue.WrapDrains` | cpp/common/shared_queue/shared_queue.h:134-140 | announcements that pass the range of the count make a queue drained with all its responses to come |
| `ResponderQueue.NoLostWakeup` | cpp/common/shared_queue/shared_queue.h:142-269 | a consumer blocked with nothing to take is owed a post or, while the queue owns its end and no more are outstanding than an unsigned holds, a response |
| `ResponderQueue.WrapStrands` | cpp/common/shared_queue/shared_queue.h:134-140 | a run that passes the range of the count: the consumer waits, every response is turned away and no post is owed |
| `WorkerPool.StepKeepsInv` | cpp/utils/deque/deque.h:21-91 | every step of pushers, threads and destructor keeps the token accounting |
| `WorkerPool.PopNeverEmpty` | cpp/utils/deque/deque.h:34-72 | no pop or try_pop reads an empty deque |
| `WorkerPool.EachMessageOnce` | cpp/utils/deque/deque.h:21-72 | each message is taken at most once, in push order, and is then handed to a handler once, dropped once because of the flag, or in the hands of one thread |
| `WorkerPool.TokensForAll` | cpp/utils/threadpool/threadpool.h:98-106 | after stop: tokens available, held and still to be posted are at least the live threads |
| `WorkerPool.NobodyLeftParked` | cpp/utils/threadpool/threadpool.h:98-190 | a thread parked after stop can wake or someone is about to make it so; waking, it returns |
| `WorkerPool.ShutdownEnds` | cpp/utils/threadpool/threadpool.h:98-190 | until every thread has returned some step other than a try can be taken, each such step lowers a rank, and a try raises it by one at most |
| `WorkerPool.ShutdownBounded` | cpp/utils/threadpool/threadpool.h:98-190 | after stop, in every stretch of every run, the steps other than tries are at most the rank at its beginning and the tries in it; when there are that many, every thread has returned |
| `WorkerPool.OnlyCheckedWork` | cpp/utils/threadpool/threadpool.h:121-190 | once the flag is raised, what is handed on is what was past its reading then: a message taken later never is, and each thread hands on at most one |
| `WorkerPool.FlagBetween` | cpp/utils/threadpool/threadpool.h:125-144 | that one can be: a run in which the flag goes up between the reading and the handler |
| `DrainingWorker.StepKeepsInv` | cpp/utils/draining_worker/draining_worker.h:59-120 | every step keeps messages, tokens and sentinel accounted for |
| `DrainingWorker.StopDrains` | cpp/utils/draining_worker/draining_worker.h:59-120 | when stop returns every message pushed has been handled once, in push order |
| `DrainingWorker.StopReturns` | cpp/utils/draining_worker/draining_worker.h:73-87 | stop does return: until then some step is possible, and each one leaves less to do |
| `CapacityWindow.TestExact` | cpp/utils/capacity_queue/capacity_queue.h:59-77 | the wrapping test agrees with the intended one if and only if the sum does not wrap, or wraps to more than the capacity |
| `CapacityWindow.WrapTakes` | cpp/utils/capacity_queue/capacity_queue.h:59-77 | a queue of capacity 4 given costs of 1 and 2^64 - 1: both are taken, though the window has no room for the second, and the count of bytes in flight is zero |
| `CapacityWindow.CapacityQueue.TryTake` | cpp/utils/capacity_queue/capacity_queue.h:59-77 | the first item is taken exactly when the test allows; the in-flight cost never passes the sum of what is out, and is that sum, within capacity or one item taken alone, until a sum wraps |
| `CapacityWindow.CapacityQueue.Complete` | cpp/utils/capacity_queue/capacity_queue.h:81-84 | credit of an item in flight is released and the window still holds; never below zero |
| `CapacityWindow.CompleteKeeps` | cpp/utils/capacity_queue/capacity_queue.h:41-84 | completing any item keeps the window bound |
| `CapacityWindow.CapacityQueue.IdleIsHonest` | cpp/utils/capacity_queue/capacity_queue.h:94-104 | while no sum has wrapped, an idle queue has nothing out but items of no cost |
| `CapacityWindow.CapacityWorker.Pump` | cpp/utils/capacity_worker/capacity_worker.h:129-136 | submits waiting chunks first to last, stopping exactly when the window has no room for the next; what stays waiting means something is in flight |
| `CapacityWindow.CapacityWorker.Execute` | cpp/utils/capacity_worker/capacity_worker.h:42-73 | for any costs, every chunk of the request is submitted once, in order, after what waited; it ends; a request that cannot size a window is discarded; the window stays exact where it leaves room for one more cost |
| `CapacityWindow.CapacityWorker.Drain` | cpp/utils/capacity_worker/capacity_worker.h:75-83 | no chunk is lost or reordered by draining |
| `SplitJoin.Split` | cpp/gcs/client/client.cc:104-168 | below 2^32 pieces the loop ends by itself, from 2^32 on only a stop ends it; up to 2^32 the first pieces are the right ones: they tile the range, all but the last are one chunk, the last at least one if there are several and under two without a cache; beyond, all are one chunk and they run on past the range |
| `SplitJoin.TilesCover` | cpp/azure/client/client.cc:260-328 | every byte of the range is in exactly one piece, which takes it to its own address |
| `SplitJoin.CounterIsWhatIsLeft` | cpp/gcs/client/client.cc:112-135 | in every run, of any number of pieces, the counter is the number not yet succeeded, in 32 bits |
| `SplitJoin.JoinRightUpTo` | cpp/gcs/client/client.cc:128-163 | in every order of completions at most one response, and the right one, if and only if the pieces are no more than 2^32 |
| `SplitJoin.AnswersEarly` | cpp/gcs/client/client.cc:128-142 | for any greater number, a run that answers Success while a piece is in flight |
| `SplitJoin.ExactlyOne` | cpp/azure/client/client.cc:276-331 | all pieces over, up to 2^32 of them: exactly one response if and only if a piece failed or a stop left none unlaunched; Success if and only if none failed |
| `RetrySchedule.ShiftEnough` | cpp/streamer/impl/object_storage_worker/object_storage_retry.cc:99-112 | stopping the shift at four does not change the capped exponential |
| `RetrySchedule.RetryDelay` | cpp/streamer/impl/object_storage_worker/object_storage_retry.cc:99-112 | a delay is between nothing and the smaller of the cap and the doubled base |
| `RetrySchedule.ObjectStorageRetry.BeginAttempt` | cpp/streamer/impl/object_storage_worker/object_storage_retry.cc:24-34 | the deadline is fixed at the first attempt; the initial attempt always may begin, a later one only before the deadline |
| `RetrySchedule.ObjectStorageRetry.ScheduleRetry` | cpp/streamer/impl/object_storage_worker/object_storage_retry.cc:36-57 | a retry is due now or later and strictly before the deadline; refused only if the deadline has passed or the longest delay would reach it |
| `RetrySchedule.ObjectStorageRetry.PopDue` | cpp/streamer/impl/object_storage_worker/object_storage_retry.cc:59-70 | pops the earliest entry if and only if its time has come |
| `RetrySchedule.ObjectStorageRetry.NextDue` | cpp/streamer/impl/object_storage_worker/object_storage_retry.cc:72-77 | the time of some entry, and of none a sooner |
| `RetrySchedule.ObjectStorageRetry.InDueOrder` | cpp/streamer/impl/object_storage_worker/object_storage_retry.cc:36-70 | over every run entries leave in due order, and those scheduled are those popped and those pending |
| `RetrySchedule.WrapAllowsLate` | cpp/streamer/impl/object_storage_worker/object_storage_retry.cc:24-57 | 2^32 retries in a row, none of which can be refused, after which an attempt past the deadline is allowed |
| `DirectReads.CongruentByShift` | cpp/posix_io/alignment/alignment.cc:114-128 | two positions are congruent if and only if one shift aligns both |
| `DirectReads.CongruentBelow` | cpp/posix_io/alignment/alignment.cc:109-128 | congruence at a power of two is congruence at every smaller one |
| `DirectReads.ExpandIsLeastCover` | cpp/posix_io/alignment/alignment.cc:130-148 | the expanded read is aligned at both ends, holds the wanted bytes, and is the least that does |
| `DirectReads.ExpandKeepsInStep` | cpp/posix_io/alignment/alignment.cc:130-148 | for congruent inputs the address is aligned, moves down by what the offset does, and never below zero |
| `DirectReads.UsableDirectBlock` | cpp/posix_io/alignment/alignment.cc:46-75 | accepted, unchanged, exactly the powers of two from 512 to 65536 |
| `DirectReads.PlacedStrictly` | cpp/posix_io/mount_capabilities/mount_capabilities.cc:122-138 | a trial read's memory, length and offset are aligned to the rung and none to twice it, and the read stays in its buffer |
| `DirectReads.TrialExact` | cpp/posix_io/mount_capabilities/mount_capabilities.cc:122-138 | a rung is served exactly when it is at least the block the mount needs |
| `DirectReads.CheckLadder` | cpp/posix_io/mount_capabilities/mount_capabilities.cc:159-183 | a ladder passes if and only if its rungs are ascending powers of two up to the largest |
| `DirectReads.LadderDirectBlock` | cpp/posix_io/mount_capabilities/mount_capabilities.cc:370-432 | the smallest rung that meets the need if the file is long enough for it; no block if all were refused; else an unmeasured block above every refused rung |

## Left out

- Submission.SubmitRequest: the file and range counts are sums that fit a size_t (2^32 files of 2^32 ranges do), so their wrap-around is not modelled.
- ReadPlan.PlanReads: what is planned for a range that ends past the largest offset or address is not stated beyond the refusals and what merging makes of it; the reads of such a plan end past every file.
- ReadPlan.PlanReads: plugin locking, strategy resolution, credentials, the submission registry and the check that a workload does not mix backends or devices are not modelled; one chunk size serves a submission, as all its files share a backend.
- WorkDivision.Assigner.Assign: the test that decides which block size a submission divides by (object storage or not) is a parameter.
- BatchExecution.Batch.Execute: the sum of the block reads of one `pread` loop is one step that delivers all its bytes, or some of them and fails; timing and logging are not modelled.
- Responses.ExactlyOneResponse: the three steps of a finish are sequentially consistent; weaker memory orders are not modelled.
- Answering.AnsweredMeansRead: host and device memory are one address space; a batch of more device blocks than an unsigned counts is not in such a run.
- BatchExecution.Batch.ReadToDevice: with more blocks than an `unsigned` counts, what the code does after waiting for too few copies is not described.
- ChunkSplitter.SplitIntoChunks: 2^32 empty tasks before any with bytes, round which the index would go unnoticed; a request whose ranges an `unsigned` counts has no such slice.
- ResponderQueue.NoLostWakeup: one consumer, as the source documents; the throughput figures kept beside the queue are not modelled.
- WorkerPool.ShutdownEnds: a handler that never returns keeps its thread, and how often a worker drains, and so tries again, is its own; `WorkerPool.ShutdownBounded` is about the tries there are.
- CapacityWindow.CapacityWorker.Execute: deferred work (`pre_pump`, `has_deferred_work`) is absent, and a drain with anything in flight completes something.
- SplitJoin.JoinRightUpTo: all pieces count as in flight from the start, which allows every order of completions the loop does and more.
- SplitJoin.Split: with exactly 2^32 pieces, what is launched after the last of them is not described.
- IoUringEngines.IoUringEngine.Flush: what the caller does with an engine that has ended is its own; only collecting completions is modelled after that.
- DirectReads.LadderDirectBlock: a trial read that fails for another reason than alignment counts as served in the source; a mount here serves or refuses by alignment only, and file sizes are not negative.
- DirectReads.ExpandIsLeastCover: offsets and lengths whose rounded end passes the largest size.
- The object-storage worker's own loop, its drain and its client calls: they add environment, not accounting.
- The async file-system worker's window and quiesce: they use the engines' contract that is proved here.
- Dispatch of workloads to pools, and draining the undispatched ones after a failed dispatch.
- System calls, liburing, libaio, CUDA and cloud SDKs, probes of host features, environment variables, logging and statistics.
- Allocation failure and wall-clock behaviour; time is any number that does not fall.
