# Verification of the logging pipeline

A Dafny model of the path a log record takes, and proofs about it:

1. `MmapBuffer`: lock-free reservation of slots in a byte region, the two-phase seal, the
   frame walk of the drain, and the reset.
2. `MmapStore`, `Strand`, `ThreadPool`: the pool of buffers, swaps, the serial asynchronous
   drain, back-pressure, `Flush`, and the elastic workers underneath.
3. `ShardWriter` and the shard reader: rotation into size-limited files, their names, their
   bytes, and decoding them again.
4. `EvictionRunner`: sweeps that delete the oldest shards while the writer goes on.
5. `EffectiveSink` and the whole way from `Log` to the decoded directory.

`dafny verify dfyconfig.toml` checks everything.

## How the model is built

Each concurrent component has two forms.

* A **machine** (`BufferMachine`, `StoreMachine`, `StrandMachine`, `PoolMachine`,
  `Retention`): a state, a label for each atomic operation, critical section, wait and
  notification, and runs of any length with any number of threads. Theorems about these
  hold in every interleaving. Operations are sequentially consistent, timeouts and spurious
  wake-ups may happen at any time.
* A **class** with the source's fields and loops (`MmapBuffer`, `MmapStore`, `Strand`,
  `ThreadPool`, `ShardWriter`, `EvictionRunner`, `EffectiveSink`, `ByteStream`). Its methods
  run alone. `MmapBuffer`, `MmapStore`, `Strand` and `ThreadPool` carry a ghost copy of
  their machine and take one of its steps for each of their own, so what is proved of the
  machine holds of them.

`StoreMachine` takes a buffer operation as one step. `BufferLinear` proves that the atomic
operations of any number of writers amount to that, and `StoreBuffer` that the class does.
It takes the strand as a queue with one current task, which `StoreStrand` ties to the
strand machine. The `Store*` files hold one invariant each: who owns a buffer, where each
frame is, what a flush is owed, the condition variables, the order; and then what follows
for flushes, waits and order. `StoreAppend` follows a single `Append` or `Flush` among the
others: the second look at the master, one swap for a full buffer, and how a call can end.

Conditions the code needs, and where they appear:

* *Reset and late writers.* `Append` uses the master it loaded without a lock, so a `Write`
  can reach a buffer that is being reset (mmap/mmap_store.cpp:71-73,
  mmap/mmap_buffer.cpp:65-74). `BufferMachine.ResetSafeIff` proves exactly when a reset is
  safe from that; the other theorems about a buffer assume runs in which no slot is
  reserved while bytes are still being cleared (`Orderly`).
* *Stray writes.* With each buffer operation one step, a late `Write` can still be accepted
  by a buffer that is free or about to be. Nothing is lost (`Store.NothingLostOrRepeated`),
  but `Flush` can leave such a frame behind; `StoreProgress.FlushGuaranteesIff` gives the
  exact condition, `StoreProgress.LateWriteStrays` a run in which it happens.
* *Order.* `EffectiveSink::Flush` does not take `pipeline_mu_`, so a flush can overlap an
  append, and such a write can overtake: `StoreDiscipline.LateWriteBreaksOrder`. Order holds
  at every moment exactly while no write goes astray (`StoreDiscipline.OrderIff`), and always
  if callers keep appends apart from flushes (`StoreDiscipline.DisciplineKeepsOrder`). The
  end-to-end theorems hold under either.
* *Uncommitted frames.* The comment at mmap/mmap_buffer.h:49 calls both causes of its `break`
  impossible. An uncommitted frame is, under the discipline of resets above; but the branch
  is taken in ordinary runs: after an overrun that leaves four or more zero bytes, the walk
  stops at the first of them with `len == 0`.
* *Two buffers.* With one buffer a thread that waits for another waits forever:
  `StoreService.NoStuckWait` is an equivalence.
* *Payload fits.* An `Append` whose payload does not fit is never accepted, and can go round
  its loop without end (`StoreService.OversizeNeverAccepted`, `StoreService.OversizeGoesOn`).
* *Listing while writing.* The shards that survive a sweep are the newest ones without a
  gap exactly when the removal list is not harmful (`Retention.HarmlessIff`); a run with a
  gap exists for every cap (`Retention.GapHappens`). "Lexicographic order == chronological
  order by design" (sinks/eviction_runner.h:16) holds exactly as `ShardName.NamesAscendIff`
  says: within one millisecond the five-digit number 10000 sorts before 9999.
* *Sweep errors.* An error while one entry is probed makes the sweep give up when the next
  entry comes up (sinks/eviction_runner.cpp:98-112); `Eviction.GivesUp` follows the code.

## Model

| member | source | states |
|---|---|---|
| Bytes.DecodeEncodeU32 | sinks/shard_writer.cpp:26-31 | reading back a 32-bit little-endian length gives the number written, for every 32-bit number |
| Bytes.EncodeDecodeU32 | audit/shard_reader.cpp:31-36 | and writing what was read gives the four bytes again, so each length has one encoding |
| Framing.WalkExact | mmap/mmap_buffer.h:40-54 | over the images of any payloads followed by zeros the frame walk yields exactly these payloads, for every end at or past the last image, so also when the offset overran the region |
| BufferMachine.ReachableInv | mmap/mmap_buffer.cpp:22-76 | the invariant of slots, bytes, fence and accounting holds in every reachable state, for any number of writers |
| BufferMachine.SealedSnapshot | mmap/mmap_buffer.cpp:22-58 | once Seal has read `writers_ == 0`, the region is the tiled images of just the Writes that returned true, in reservation order, with zeros after them, and the frame walk yields their payloads |
| BufferMachine.SealedFence | mmap/mmap_buffer.cpp:25-32 | from then until the reset no step of any thread changes region, offset or accepted writes: no writer is past the sealed check, nor gets past it |
| BufferMachine.SettledHolds | mmap/mmap_buffer.cpp:22-58 | whenever nobody fills a slot and nothing is being cleared, the region is the tiled frames with zeros after them, and the offset is their end unless it has overrun |
| BufferLinear.Linearizable | mmap/mmap_buffer.cpp:22-76 | every orderly interleaving of any number of writers with seals and resets is equivalent to a sequence of single-step writes, seals and resets in which each returned call appears once, with its result, and after every call that had returned before it started |
| BufferLinear.StepLinear | mmap/mmap_buffer.cpp:22-76 | each atomic step extends that sequence by at most one operation; a write that reserves while Seal spins goes before the seal |
| BufferMachine.OverrunIsFinal | mmap/mmap_buffer.cpp:34-42 | within a cycle reservations only append, and after the first overrun no reservation succeeds |
| BufferMachine.EmptyReadsZero | mmap/mmap_buffer.cpp:60-76 | an open buffer without a reservation reads as all zeros, after any number of write, seal, drain and reset cycles |
| BufferMachine.ResetSafeIff | mmap/mmap_buffer.cpp:60-76 | no interleaving of late writers with the reset destroys an accepted frame, if and only if there is nothing to clear or no frame fits the region at all |
| BufferMachine.LateWriteIsLost | mmap/mmap_buffer.cpp:65-75 | otherwise this run does: a writer let in by the cleared flag completes, returns true, and the memset wipes its header |
| MmapBuffer.MmapBuffer.constructor | mmap/mmap_buffer.cpp:19-20 | a new buffer is open, empty and valid |
| MmapBuffer.MmapBuffer.Write | mmap/mmap_buffer.cpp:22-50 | succeeds exactly for a payload of 1 to 2^32-1 bytes that fits an unsealed buffer, and then adds just that frame; a failed reservation keeps the offset moved |
| MmapBuffer.MmapBuffer.Place | mmap/mmap_buffer.cpp:34-46 | the reservation is never rolled back, and a granted slot is filled completely |
| MmapBuffer.MmapBuffer.Fill | mmap/mmap_buffer.cpp:44-46 | header and payload are stored byte by byte, in the slot of this call only |
| MmapBuffer.MmapBuffer.Seal | mmap/mmap_buffer.cpp:52-58 | seals, and changes neither frames nor offset |
| MmapBuffer.MmapBuffer.UsedBytes | mmap/mmap_buffer.cpp:84-86 | all accepted frames lie below it, exactly up to it unless the offset has overrun the region, and every byte from there on is zero |
| MmapBuffer.MmapBuffer.ForEachFrame | mmap/mmap_buffer.h:40-54 | the drain hands out exactly the accepted payloads, in order |
| MmapBuffer.MmapBuffer.WalkTo | mmap/mmap_buffer.h:44-53 | the loop over the bytes computes the walk |
| MmapBuffer.MmapBuffer.ResetForReuse | mmap/mmap_buffer.cpp:60-76 | back to open and empty, with every byte zero |
| MmapBuffer.MmapBuffer.Scrub | mmap/mmap_buffer.cpp:73-75 | clears precisely the bytes the cycle touched |
| StoreBuffer.Write | mmap/mmap_store.cpp:73 | the real Write on the bytes is the one step the store machine takes for it, result included |
| StoreBuffer.Seal | mmap/mmap_store.cpp:146 | as for sealing |
| StoreBuffer.ForEachFrame | mmap/mmap_store.cpp:154-163 | the walk over the bytes delivers what the machine's delivery steps do |
| StoreBuffer.ResetForReuse | mmap/mmap_store.cpp:165 | the reset gives back a buffer as good as new |
| StoreMachine.Normalise | mmap/mmap_store.cpp:23-25 | valid settings stay; otherwise 2 buffers, 4 MiB, and a maximum no less than the minimum |
| StoreOwnership.StepPartition | mmap/mmap_store.cpp:95-170 | every step of every thread keeps each buffer in exactly one owner's hands |
| Store.ReachableInv | mmap/mmap_store.cpp:67-195 | the conjunction of all store invariants holds in every reachable state |
| Store.OwnershipPartition | mmap/mmap_store.cpp:95-141 | each pool buffer is the master, free, posted, being drained or in the lock holder's hands, and only one of these; the pool keeps its bound; the master is never sealed; `in_flight_` is the number of drain tasks not past their decrement |
| Store.NothingLostOrRepeated | mmap/mmap_store.cpp:67-177 | stale master loads included, a frame has been accepted as often as it has been delivered plus is still held, and at most once |
| Store.NoLostWakeup | mmap/mmap_store.cpp:128-140 | while a thread sleeps for a buffer, every free buffer has a pending notification or a woken thread; a sleeping flusher with nothing in flight is about to be woken |
| Store.FlushComplete | mmap/mmap_store.cpp:179-195 | when a Flush returns, every frame accepted before it began has been delivered, unless a buffer in `free_`, or reset and on its way there, held it then, whatever other threads did, swaps during the buffer wait included |
| StoreDiscipline.OrderIff | mmap/mmap_store.cpp:67-177 | with appends serialised, delivered frames, then queued buffers in strand order, then the master are the accepted frames at every moment of a run if and only if no write succeeds on a buffer that has been reset and is not master again |
| StoreDiscipline.StrayBreaksOrder | mmap/mmap_store.cpp:71-73 | each such write breaks the equation at once |
| StoreDiscipline.DisciplineKeepsOrder | mmap/mmap_store.cpp:67-195 | if no append begins during a flush or another append and no flush during an append, no write goes astray and the order holds in every run |
| StoreDiscipline.SingleProducerOrder | mmap/mmap_store.cpp:67-177 | under either condition the equation holds and calls come out in the order they were made |
| StoreDiscipline.LateWriteBreaksOrder | sinks/effective_sink.cpp:112-119 | serialising appends alone, as Log does, is not enough: a run of that kind loses the order |
| StoreOrder.StepInOrder | mmap/mmap_store.cpp:95-177 | each step keeps that equation, two waiters swapping the same master and concurrent flushes included |
| StoreFrames.StepConserved | mmap/mmap_store.cpp:143-177 | each step keeps the count of every frame |
| StoreFlush.StepFlush | mmap/mmap_store.cpp:179-195 | each step keeps what every unfinished flush is owed within its reach |
| StoreWaits.StepInv | mmap/mmap_store.cpp:128-140 | each step keeps the notification invariants |
| StoreService.WorkGetsDone | mmap/mmap_store.cpp:143-177 | from every reachable state steps of the lock holder and the strand alone leave nothing in flight and deliver all frames in line |
| StoreService.NoStuckWait | mmap/mmap_store.cpp:128-140 | a sleeping thread gets a buffer by steps of the lock holder, the strand and woken threads, without any timeout, spurious wake-up or new call, if and only if the pool may hold two buffers |
| StoreService.OversizeNeverAccepted | mmap/mmap_store.cpp:70-92 | a payload that does not fit a buffer is never accepted |
| StoreService.OversizeGoesOn | mmap/mmap_store.cpp:70-92 | and with two buffers its append can go round its loop, swapping, any number of times |
| StoreAppend.RecheckRetries | mmap/mmap_store.cpp:75-84 | a producer whose write failed and that finds another master under the lock takes no buffer, does not wait and changes nothing but where it is; its next write goes to that master, and is accepted if and only if the record fits what is left of it |
| StoreAppend.SwapsBalance | mmap/mmap_store.cpp:75-108 | along any run, whatever other threads do, producers that failed on a buffer swap it out no more often than it became master |
| StoreAppend.SwappedOutOnce | mmap/mmap_store.cpp:75-108 | however many producers fail on one full buffer, once one of them has taken the lock without having to wait and the lock is free again, the buffer has been swapped out exactly once, for every run that does not make it master again |
| StoreAppend.AppendEnds | mmap/mmap_store.cpp:67-93 | among other threads an Append returns true only with its frame accepted by an unsealed buffer in which it fits, and false only from a wait that timed out with nothing free and the pool full; no other step of any thread ends it |
| StoreAppend.SleepsWhenNothingLeft | mmap/mmap_store.cpp:112-135 | a thread is put to sleep, or back to sleep, only with no buffer free and the pool full |
| StoreAppend.BuffersTakenInTurn | mmap/mmap_store.cpp:102-126 | free buffers are taken in turn from the front, the pool grows only when none is free and it may, and the buffer taken is the next master |
| StoreAppend.FlushSwapsUsed | mmap/mmap_store.cpp:182-189 | a flush leaves an unused master alone; for a used one it takes a buffer or waits for one |
| StoreAppend.FlushEnds | mmap/mmap_store.cpp:182-195 | among other threads a flush returns only from a test that finds nothing in flight; its waits do not time out |
| StoreProgress.OneBufferForever | mmap/mmap_store.cpp:23-24 | with one buffer nothing ever becomes free, in any run |
| StoreProgress.FlushGuaranteesIff | mmap/mmap_store.cpp:179-195 | Flush delivers all that was accepted before it, in every continuation, if and only if no buffer in `free_` or on its way there holds a frame when it begins |
| StoreProgress.ParkedFrameMissed | mmap/mmap_store.cpp:186-194 | for every such frame there is a run in which the flush returns without it |
| StoreProgress.LateWriteStrays | mmap/mmap_store.cpp:71-73 | and such frames exist: a reachable state in which a late write was accepted by a drained buffer |
| MmapStore.MmapStore.constructor | mmap/mmap_store.cpp:9-42 | the first buffer is the master, the others are free |
| MmapStore.MmapStore.Append | mmap/mmap_store.cpp:67-93 | without interference: returns true exactly when the payload fits a buffer and there is room or a buffer can be had in time, after at most one swap, and then has accepted just this frame |
| MmapStore.MmapStore.TryWrite | mmap/mmap_store.cpp:71-73 | one round of the loop up to the write |
| MmapStore.MmapStore.SwapIn | mmap/mmap_store.cpp:102-107 | the prior master is counted and queued last, the new one is in place |
| MmapStore.MmapStore.Acquire | mmap/mmap_store.cpp:110-141 | gives a fresh buffer exactly when one is free, the pool can grow, or a drain ends within the wait |
| MmapStore.MmapStore.Wait | mmap/mmap_store.cpp:128-140 | the wait, served by a drain or timed out |
| MmapStore.MmapStore.DrainOne | mmap/mmap_store.cpp:143-177 | delivers the frames of the oldest queued buffer in order, resets it, frees it, counts it off and wakes the waiter |
| MmapStore.MmapStore.Deliver | mmap/mmap_store.cpp:154-163 | the callback loop appends all frames to what was delivered |
| MmapStore.MmapStore.SwapOut | mmap/mmap_store.cpp:182-189 | a used master is swapped out for another, empty one, with a wait that ends when there are two buffers |
| MmapStore.MmapStore.WaitDrained | mmap/mmap_store.cpp:190-194 | waits until nothing is in flight |
| MmapStore.MmapStore.Flush | mmap/mmap_store.cpp:179-195 | afterwards all accepted frames are delivered, in acceptance order, and nothing is queued; the master has changed if and only if it had been used |
| StrandMachine.SerialInOrder | context/strand.cpp:8-44 | drain tokens number one while `running_` holds and zero otherwise; not running means an empty queue; at most one task executes; executed, current and queued tasks are all tasks in enqueue order |
| StrandMachine.TokenFinishesAll | context/strand.cpp:24-44 | the live token can always move on, and its steps alone run every queued task in order |
| StrandMachine.RefinesSerial | context/strand.cpp:8-44 | to its users a strand is a queue and one current task |
| StoreStrand.StepIsSerial | mmap/mmap_store.cpp:105-106 | every step of the store machine treats its strand as just that: an enqueue, the start of the oldest task while none runs, the end of the current one, or nothing |
| StoreStrand.StrandFollows | context/strand.cpp:8-44 | and a strand in a matching state can make the same move by its own steps |
| Strand.Strand.Enqueue | context/strand.cpp:8-22 | appends, and posts a drain exactly when none is live |
| Strand.Strand.Drain | context/strand.cpp:24-44 | runs everything in order, also what comes in while it runs, and leaves the strand at rest |
| Strand.Strand.RunOne | context/strand.cpp:27-37 | one round of the loop |
| PoolMachine.Normalise | context/thread_pool.cpp:19-21 | valid settings stay; otherwise 1 thread, factor 1, and a maximum no less than the minimum |
| PoolMachine.StepInv | context/thread_pool.cpp:38-163 | every step of submitters, workers and shutdowns keeps the pool's invariant |
| PoolMachine.WithinLimits | context/thread_pool.cpp:18-27 | until stopped, min <= `worker_count_` <= max; it is the number of live workers, and positive while tasks wait |
| PoolMachine.NoLostWakeup | context/thread_pool.cpp:53-60 | while a worker sleeps, each queued task has a pending notification or a woken worker, and a stopped pool its notify_all |
| PoolMachine.AtMostOnce | context/thread_pool.cpp:90-137 | no task runs twice or is both queued and run |
| PoolMachine.ShutdownDrains | context/thread_pool.cpp:139-163 | when the winning Shutdown and all submitters have returned, every task ran exactly once, every thread is over and was joined exactly once, and the count is 0 |
| PoolProgress.FinishesByItself | context/thread_pool.cpp:38-163 | from every reachable state the existing workers, submitters and stoppers finish by themselves, although Enqueue_ joins under the lock: all calls return, every task has run once, and a Shutdown that had begun ends the pool |
| PoolProgress.HelpLowers | context/thread_pool.cpp:38-163 | each of their steps lowers a measure, so no choice among them goes on forever |
| ThreadPool.ThreadPool.constructor | context/thread_pool.cpp:18-27 | starts with the minimum of workers |
| ThreadPool.ThreadPool.Enqueue | context/thread_pool.cpp:38-70 | queues the task and spawns one worker exactly when the queue outgrows the workers and the limit allows; a stopped pool runs it at once |
| ThreadPool.ThreadPool.Push | context/thread_pool.cpp:47-59 | the first critical section, reaping included |
| ThreadPool.ThreadPool.Spawn | context/thread_pool.cpp:61-69 | the second, which tests again |
| ThreadPool.ThreadPool.ReapLocked | context/thread_pool.cpp:83-88 | joins each thread that signed off, once, and forgets it |
| ThreadPool.ThreadPool.Turn | context/thread_pool.cpp:90-137 | a worker takes the oldest task if there is one, leaves if the pool stopped or it idled above the minimum, and otherwise goes on |
| ThreadPool.ThreadPool.RunTask | context/thread_pool.cpp:101-133 | first in, first out |
| ThreadPool.ThreadPool.SignOff | context/thread_pool.cpp:114-121 | hands its own thread object to `reap_`, unless Shutdown took it, and counts itself off |
| ThreadPool.ThreadPool.Join | context/thread_pool.cpp:157-159 | a joined worker of a stopped pool has run what was queued and is over |
| ThreadPool.ThreadPool.Collect | context/thread_pool.cpp:139-156 | stops, wakes all, and moves every thread out |
| ThreadPool.ThreadPool.Shutdown | context/thread_pool.cpp:139-163 | the first call returns with every task run once, every thread joined once, nothing left; a second changes nothing |
| ShardName.NameOrder | sinks/shard_writer.cpp:164-167 | for in-range fields, names sort by time first, then as their sequence parts sort |
| ShardName.LessIff | sinks/eviction_runner.cpp:121-122 | the order of the sort is the lexicographic one: the shorter of two names with a common start, or the smaller first difference, comes first |
| ShardName.NameExample | sinks/shard_writer.cpp:164-167 | the printed form, character by character, for one time stamp and number |
| ShardName.TailOrderIff | sinks/shard_writer.cpp:163-167 | for m < n within one millisecond, name m sorts before name n if and only if m does not exceed the leading digits of n, as many as m is printed with |
| ShardName.NamesAscendIff | sinks/shard_writer.cpp:150-168 | the later of two names sorts later if and only if the clock moved on, or stands still and the numbers are in order as printed |
| ShardName.NamesDiffer | sinks/shard_writer.cpp:150-168 | two names with different numbers differ even if the clock goes back |
| ShardName.TenThousandSortsEarly | sinks/shard_writer.cpp:163-167 | the first violation: 10000 sorts before 9999 |
| ShardName.ShardsAreFound | sinks/eviction_runner.cpp:19-23 | every name the writer gives is recognised by the eviction runner and, by the same test, by the reader |
| ShardName.LooksLikeIff | sinks/eviction_runner.cpp:19-23 | the test of the runner and of the reader accepts exactly the names that are "log-", at least one character, and ".bin" |
| ShardName.BuffersAreNotShards | mmap/mmap_store.cpp:57-65 | no buffer file in the same directory is taken for a shard |
| ShardPacking.PackKeepsFrames | sinks/shard_writer.cpp:62-82 | frames are never split, reordered, dropped or repeated, except that empty ones are ignored |
| ShardPacking.PackShape | sinks/shard_writer.cpp:70-73 | every closed shard holds a frame, a shard over the limit holds exactly one, and a new shard is opened only for a frame that did not fit |
| ShardPacking.NextFitBound | sinks/shard_writer.cpp:62-82 | if every frame fits `limit - 48`, the shards number at most 2 * OPT - 1 for any other arrangement of the frames into OPT files within the limit |
| ShardWriter.Create | sinks/shard_writer.cpp:35-55 | construction fails exactly for a key not of 32 bytes, a limit within the header, a directory that cannot be created, or a failed open |
| ShardWriter.ShardWriter.constructor | sinks/shard_writer.cpp:53-54 | starts with one shard that holds just the header |
| ShardWriter.ShardWriter.OpenNewShard | sinks/shard_writer.cpp:108-124 | uses up a name whether the open succeeds or not |
| ShardWriter.ShardWriter.WriteHeader | sinks/shard_writer.cpp:135-148 | the 48 bytes filled in place are 4C 47 52 48 01 00 00 00 01 00 00 00, the public key and four zeros |
| ShardWriter.ShardWriter.WriteFrame | sinks/shard_writer.cpp:62-82 | appends the frame to the current or a new shard as next-fit demands, changes no other file, keeps every file equal to header and frames, and loses the frame only if the open it needs fails |
| ShardWriter.ShardWriter.CurrentShardPath | sinks/shard_writer.cpp:84-87 | the name issued last |
| ShardWriter.NamesUnique | sinks/shard_writer.cpp:163 | no name is issued twice before the 32-bit counter wraps |
| ShardWriter.NamesInOrderIff | sinks/shard_writer.cpp:150-168 | before the counter wraps, a name sorts after an earlier one if and only if the clock has moved on, or stands still and the numbers are in order as printed |
| ShardWriter.EnoughToFollow | sinks/shard_writer.cpp:150-168 | which holds while the clock does not go back and, within a millisecond, numbers are below 10000 or equally long |
| ShardWriter.OpenedBook | sinks/shard_writer.cpp:108-124 | opening a shard leaves every earlier file as written |
| ShardReader.ReadShardHeader | audit/shard_reader.cpp:73-89 | refuses as short exactly what is under 48 bytes, as no shard exactly what does not start with 4C 47 52 48 01 00 00 00, and succeeds exactly if 01 00 00 00 follows, with the key behind it |
| ShardReader.DecodeShardFile | audit/shard_reader.cpp:91-139 | succeeds only for a file that opens, has 48 bytes, the twelve bytes of a genuine header and a key that is agreed on; the stream loop computes the decoding that the next rows characterise for every file |
| ShardReader.HeaderParses | sinks/shard_writer.cpp:135-148 | the reader gets the writer's public key out of the writer's header |
| ShardReader.HeaderErrorsIff | audit/shard_reader.cpp:91-99 | for every file, exactly when it is refused as unopenable, short, no shard, of an unknown algorithm (and which) or for its key, in terms of its bytes |
| ShardReader.FileDecodesIff | audit/shard_reader.cpp:91-139 | a file decodes to these records if and only if it opens, its header is genuine, its key is agreed on, and the rest is whole frames whose bodies, of 28 bytes or more, decrypt, decompress and parse to them in order |
| ShardReader.FirstDefect | audit/shard_reader.cpp:105-137 | bytes behind a header that are refused are whole good frames up to the one that is cut, short, or fails to decrypt, decompress or parse, and the error says which |
| ShardReader.DefectDecides | audit/shard_reader.cpp:105-137 | and conversely such a frame behind good ones always gives that error |
| ShardReader.CutDecodes | audit/shard_reader.cpp:105-137 | a shard cut inside a frame is refused as a torn length or a torn body, depending on where; cut between frames it decodes to the records before the cut |
| ShardReader.PrefixDecodesIff | audit/shard_reader.cpp:91-139 | a prefix of a shard decodes if and only if it ends at a frame boundary; the whole shard decodes to all its records |
| ShardReader.DecodedAreFrames | audit/shard_reader.cpp:105-137 | conversely, bytes that decode are the frames of readable bodies that open to the records returned, and nothing else |
| NameSort.SortRestores | audit/shard_reader.cpp:154 | sorting a directory listing that comes in any order restores the order of the names |
| ShardDir.DecodeShardDir | audit/shard_reader.cpp:141-164 | exactly the regular files of the listing whose names have the form "log-", something, ".bin" are decoded, in the order of their names: to all their records if all decode, otherwise to the error of the first that does not |
| ShardDir.DirOutcome | audit/shard_reader.cpp:147-163 | for every listing: the directory decodes if and only if each of its shards does, and then to their records one file after another in name order; otherwise the error is that of the first shard by name that does not decode |
| ShardDir.DirRoundTrip | audit/shard_reader.cpp:141-164 | a directory of genuine shards, among other files and listed in any order, decodes to their records in name order |
| Eviction.Scan | sinks/eviction_runner.cpp:98-115 | lists the shards with their sizes and their sum; gives up exactly when, at an entry other than the last, the file type or the size of a shard could not be had |
| Eviction.Fewest | sinks/eviction_runner.cpp:131-149 | the shortest run from the front that brings the total to the cap, or all |
| Eviction.EvictionRunner.SweepOnce | sinks/eviction_runner.cpp:84-150 | removes nothing without a directory; otherwise only listed shards, never a file outside the name form, nor the active shard if its path canonicalises, nor one whose removal fails, and with each removed shard all others that sort before it; its total is what remains of the listed sizes |
| Eviction.EvictionRunner.RemoveOldest | sinks/eviction_runner.cpp:131-149 | of the sorted files, all up to some point are gone but the active one and those whose removal fails; the point is the first that reaches the cap |
| Eviction.SweepOptimal | sinks/eviction_runner.cpp:121-149 | the active shard and those that cannot be removed stay; any other that is older than a removed one is removed too; the cap is reached unless none of them is left; one removal fewer would not reach it |
| Eviction.ShardsCount | sinks/eviction_runner.cpp:98-115 | the shards of a listing are its regular files with a known size and a name of the form, each as often as it is listed |
| Retention.CurrentFileSurvives | sinks/eviction_runner.cpp:98-149 | in every interleaving of writes, rotations and sweeps, with any listings and failed removals, the file being written is never deleted and the total never underflows |
| Retention.SuffixRetained | sinks/eviction_runner.cpp:98-149 | if no removal fails and no removal list is harmful, the surviving shards are the newest ones without a gap at every moment |
| Retention.HarmlessIff | sinks/eviction_runner.cpp:131-149 | as a removal loop starts on a suffix, the survivors stay one in every clean continuation if and only if its list is harmless |
| Retention.HarmLeavesGap | sinks/eviction_runner.cpp:131-149 | from any harmful list the removals alone, all successful, leave a gap |
| Retention.CompleteListing | sinks/eviction_runner.cpp:98-129 | a listing that misses nothing older than what it has is never harmful |
| Retention.YoungWithinCap | sinks/eviction_runner.cpp:98-129 | nor is one whose entries younger than its beginning are within the cap |
| Retention.GapHappens | sinks/eviction_runner.cpp:98-149 | for every cap there is a run in which a listing misses a shard, and the sweep leaves it in a gap |
| Retention.SurvivorsStart | sinks/eviction_runner.cpp:98-149 | in a clean run the survivors are all shards from some number on, at every moment |
| Pipeline.SurvivorsDecode | audit/shard_reader.cpp:147-162 | the shards that survive a clean run, read in sorted order, decode to a suffix of the written record history |
| EffectiveSink.EffectiveSink.BuildFrame | sinks/effective_sink.cpp:85-102 | whatever the reused buffers held, the frame is the 32-bit length and the body that formatting, compressing and encrypting this message alone give, under the next nonce |
| EffectiveSink.EffectiveSink.Log | sinks/effective_sink.cpp:83-110 | the store accepts exactly that frame, if it fits a buffer that has room or can be had in time, or the record is dropped |
| EffectiveSink.EffectiveSink.OnPersist | sinks/effective_sink.cpp:121-131 | the frame reaches the writer unless the open it needs fails |
| EffectiveSink.LoggedFrameOpens | sinks/effective_sink.cpp:90-102 | if each stage of the auditor undoes the stage it belongs to, the frame of a message decrypts, decompresses and parses to the record of that message |
| EffectiveSink.EffectiveSink.PersistAll | sinks/effective_sink.cpp:121-131 | the callbacks write all frames in order, into files of the writer's names only |
| Pipeline.FlushDelivers | sinks/effective_sink.cpp:83-119 | with Log serialised, and flushes kept off it or no stray write, when a flush returns the records accepted before it are the first delivered, in call order |
| Pipeline.DirectoryDecodes | audit/shard_reader.cpp:141-164 | if the writer's shards from some number on are left, the directory decodes to exactly the records in them: a suffix of the written history |
| Pipeline.FlushedRecordsDecode | sinks/effective_sink.cpp:83-131 | after a flush, decoding the shards that hold what was delivered yields the records accepted before it, first and in the order of the Log calls |
| Archive.ListingHolds | audit/shard_reader.cpp:147-154 | in a directory that held no shards before, any listing shows the writer's shards and no others |
| Archive.ListDirectory | audit/shard_reader.cpp:147-153 | iterating gives such a listing |
| Archive.SteadyIsTimely | sinks/shard_writer.cpp:150-168 | a clock that does not go back, and moves from reading 10000 on, keeps the names in order |
| EndToEnd.DeliversSinkFrames | sinks/effective_sink.cpp:104-105 | only what was appended is delivered |
| EndToEnd.LoggedRecordsDecode | sinks/effective_sink.cpp:83-131 | end to end over all interleavings: Log calls, a flush that returned, the files written, any listing of the directory, and the decoder give the logged records back |
| EndToEnd.PersistAndDecode | audit/shard_reader.cpp:141-164 | the code in sequence: a new writer, the callbacks, the listing and the decoder return the records of any delivered frames |

## Left out

- Weak memory: operations interleave sequentially consistently; acquire, release and relaxed orders are not told apart.
- Machine-word widths of `offset_`, sizes and counters: unbounded here, except the 32-bit frame lengths and the 32-bit `seq_`, which wrap as in the code. The 64-bit millisecond clock is a parameter whose fields fit their printed widths.
- Files behind the regions, `msync`, page cache: a region is an array of bytes, fresh ones read as zeros. The code opens an existing file without clearing it (mmap/mmap_region.cpp).
- Failing calls into the system: buffer creation, short `fwrite`, failing header writes and a failing `Sync` are assumed not to occur. Failing opens, removals, probes and canonicalisations are modelled.
- Buffered output: what `fwrite` has taken is in the file at once, so `Flush` of the writer has no effect here; only a sweep's view of the current file's size may lag behind.
- AES-GCM, X25519, HKDF, zlib and protobuf: parameters (`Codec`, `Stages`), of which the round trips assume that each stage undoes its own counterpart.
- Messages, formatters, console output, log levels, handles and their registry: they do not take part in the guarantees above.
- The eviction runner's thread (`Start`, `Stop`, `RunLoop_`), key exchange and construction of the sink: sweeps may begin at any time, and the parts are given.
- Destructors, `stopped_` of the store, and drains that a stopped pool runs inline under the store's lock.
- `Append(nullptr)`, `PersistedBytes`, `PoolSize`, `QueueSize`: no state of interest. A throwing task or callback counts as one that ran.
- Futures of `Submit`: a task is a number.
- Real time: timeouts happen at any moment, the sweep interval is not modelled, and local-time shifts are only the assumption that time stamps do not decrease where a theorem says so.
- The classes for concurrent components show one call at a time; interleavings are the machines' subject, so the second look at the master in `Append` is in `StoreMachine` and `StoreAppend` only. `MmapStore` keeps its buffers as values, and `StoreBuffer` relates a value to the object with its bytes; two `MmapStore` objects sharing a buffer cannot be expressed.
- ThreadPool.ThreadPool.Shutdown: in the class the joining thread's wait is the workers' turns run one worker after another; all orders are covered by `PoolMachine.ShutdownDrains`.
- MmapStore.MmapStore.Append: a payload that does not fit is refused once the waits are used up, because a call of the class bounds the drains within it; `StoreService.OversizeGoesOn` shows that in the code the loop need not end.
- `std::sort`: any sort does, since names differ (`NameSort.SortRestores`); the model inserts.
- A second process that writes into the same directory in the same millisecond can open a file of the same name; names are proved distinct for one writer.
