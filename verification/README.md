# Verification of disktest

disktest writes a pseudo-random stream to a disk, generates it again and compares. The stream is
made by N worker threads, each with its own generator, and put together chunk by chunk. The tool
is worth as much as one promise: the byte at disk position p depends on the seed, the round, the
number of threads, the algorithm and p, and on nothing else. It must not depend on how threads are
scheduled, where a run was seeked to, which buffers are recycled or how reads are cut short.

This project models the code that the promise rests on, from the bits of the CRC up to the write
and verify loops, and proves it, together with what the protocol between the threads is supposed
to keep. Two statements that one would expect turn out to be false of the code: that `stop` always
returns, and that the range of dropped caches always covers what was written. For both there is a
witness and the exact condition under which they hold.

## Structure

| file | what it holds |
|---|---|
| `Bytes.dfy`, `Arithmetic.dfy`, `Words.dfy` | bytes, machine integers, division facts, laws of 64-bit words |
| `Generator.dfy`, `Interleave.dfy` | the generator contract `Config.Lawful`, the sequential stream `Global`, positions of the generators |
| `Stream.dfy` | worker and consumer of one stream as a step relation over program counters |
| `StreamInvariant.dfy`, `StreamProgress.dfy` | what every reachable state satisfies; ranking functions, stop and join |
| `BufCache.dfy` | the recycling channels as classes |
| `Aggregator.dfy`, `AggregatorInvariant.dfy`, `Allocation.dfy`, `AllocationBound.dfy` | N streams and one consumer as one interleaved machine; schedule independence; bounded allocation, and that the bound is reached for every limit |
| `AggregatorStop.dfy` | when activate and the drop of the aggregator return, and when some schedule hangs |
| `StreamAgg.dfy` | the aggregator's methods, as consumer steps between which any worker may run |
| `Device.dfy`, `DropAccounting.dfy`, `DisktestFile.dfy` | the medium, the file handle and its cache-drop accounting |
| `DiskStream.dfy`, `Disktest.dfy` | the write and verify loops and the end-to-end results |
| `Crc64.dfy`, `Fold.dfy`, `CrcGenerator.dfy`, `CrcStream.dfy` | table-driven CRC-64, `fold`, the CRC generator, its laws, and that it is an instance of the contract |

The concurrent part is a step relation, because its point is the interleaving. An access to an
atomic, the channel, the mutex or the condition variable is a step of its own; `send` and
`fetch_add` are two, and so are `try_recv` and `fetch_sub`. Steps are sequentially consistent. A few
accesses are merged into one step, where no other thread can tell. `WTest` tests `sleeping`, and
waiting releases the mutex at once, as condition variables do. `CClear` tests and clears the flag,
notifies and unlocks, all under the mutex. `WReload` loads the level and then unlocks: unlocking
later commutes with whatever the consumer does meanwhile, since it changes the level without the
mutex and cannot lock. `CStart` resets three atomics and spawns the worker when no other worker is
alive to see them apart. In
`disktest-lib/src/stream.rs`, `Stream.Make` is lines 84 to 127, `Stream.Nap` lines 128 to 135,
`Stream.Receive` lines 302 to 325, `Stream.Wake` lines 193 to 199 and `Stream.StopStart` lines
203 to 257. `Aggregator.ConsumeSweep`, `Aggregator.ConsumeGet` and `Aggregator.Apply` are lines
124 to 206 and 38 to 48 of `disktest-lib/src/stream_aggregator.rs`; for the drop of the aggregator,
`ConsumeSweep` stops every stream as lines 328 to 332 of `disktest-lib/src/stream.rs` do. The watermarks, the number of
threads, the base size and the chunk factor are symbolic; `CrcStream.CrcDefault` puts in the values
of the program.

Code that changes things step by step is imperative here too: the aggregator, the file handle, the
write and verify loops, the cache, the CRC table and generator and `fold` are methods and classes
with loops, arrays and fields. The state of `StreamAgg.DtStreamAgg` is a state of the
machine, its ghost field `run` is a run that leads there, and `Interleave` lets the scheduler run
any workers for any number of steps. So what is proved of `WaitChunk` or `Activate` is proved for
every schedule.

The device makes arbitrary choices, but they are on record: it counts its failed calls, its
out-of-space replies and its completed reads and writes, and logs every sync, close and drop of
caches with its outcome. What the k-th look at the abort flag finds is an arbitrary function of k.
So the contracts of the write and verify loops can say that a failure is reported only if there was
a reason (`Disktest.Disktest.Excused`), and a success only if no call failed but for a first attempt
to open the file; that the flag is looked at and obeyed (`Disktest.Disktest.Obeyed`); and what has
been put on the medium at the end.

The generator contract says that block c of thread t is a function of t and c, and that `next`
overwrites a whole buffer with consecutive blocks. ChaCha stays abstract behind it. The CRC
generator is proved to satisfy it.

## Model

| member | source | states |
|---|---|---|
| StreamInvariant.RunInv | disktest-lib/src/stream.rs:101-136 | every run of one stream keeps the invariant: life cycle, mutex and sleep flag, level accounting, chunk contents, buffer accounting |
| StreamInvariant.LevelAccounting | disktest-lib/src/stream.rs:100-127 | in every reachable state level = queue length - (sent, not yet added) + (received, not yet subtracted); it lies between -1 and MAX_THRES, and the queue never exceeds MAX_THRES although the worker decides on a stale level |
| StreamInvariant.ChunksInOrder | disktest-lib/src/stream.rs:302-325 | in any interleaving and with any recycled buffers, the k-th chunk get_chunk returns after a start is the k-th chunk of the generator from the seek position on |
| StreamInvariant.OneWorker | disktest-lib/src/stream.rs:203-257 | over all runs of activate, stop and drop at most one worker is alive, none without a join handle, none ever sends to a receiver that is gone, and the two assertions of start hold |
| StreamProgress.AlignedNeverFails | disktest-lib/src/stream.rs:84-89 | over every run from the start: if all offsets handed to the stream are multiples of the base size, the error flag is never set, and get_chunk fails only while the stream is not active |
| StreamProgress.MisalignedDeliversNothing | disktest-lib/src/stream.rs:85-89 | a stream started at any other offset delivers nothing in any run until it is stopped, and when its worker has returned the error flag is set and get_chunk fails |
| StreamProgress.GetFailsIff | disktest-lib/src/stream.rs:302-312 | after any run of starts, stops and drops, get_chunk fails if and only if the stream is not active or the worker of the last start has returned because its generator refused the offset; it goes on to try_recv otherwise, also if an earlier start failed |
| StreamProgress.LevelCanBeNegative | disktest-lib/src/stream.rs:126-127 | the bound -1 is reached: a chunk can be received and subtracted before its sender has added it |
| StreamProgress.LowWatermark | disktest-lib/src/stream.rs:314-321 | hysteresis, in every interleaving: when get_chunk returns a chunk, a worker that slept when it was received is awake if and only if the level after it is at most LO_THRES |
| StreamProgress.NoStarvation | disktest-lib/src/stream.rs:128-136 | no lost wakeup: from any reachable polling state, also with a worker that slept on a stale level, at most 30 effective steps are taken before a chunk is sent, whatever else is interleaved |
| StreamProgress.RankWork | disktest-lib/src/stream.rs:101-136 | while the channel is empty, no worker step raises the rank and every step of a worker that is not asleep lowers it, or it sends |
| StreamProgress.RankOther | disktest-lib/src/stream.rs:193-199 | no consumer step raises the rank; the decrement of the level and the wakeup of a sleeping worker lower it |
| StreamProgress.NeverStuck | disktest-lib/src/stream.rs:128-134 | between polls the worker can take a step of its own, unless it sleeps where the next poll wakes it |
| StreamProgress.StopJoins | disktest-lib/src/stream.rs:203-211 | exactly when stop can join: after the wake, some run gets past the join if and only if the worker was not between its check of abort and the mutex; otherwise no run does |
| StreamProgress.StopCanHangIff | disktest-lib/src/stream.rs:203-211 | the same from the entry of stop, by what can be known there: some schedule of this stop leads to a join that never returns, if and only if there is a worker that has not returned, does not sleep (nor is about to, with the mutex held) and will not refuse its offset |
| StreamProgress.ExitIsNear | disktest-lib/src/stream.rs:207-209 | a worker that is being joined and not doomed takes at most five more steps, in every run |
| StreamProgress.ExitStep | disktest-lib/src/stream.rs:101-134 | until it has returned it can always take one, and each brings it nearer |
| StreamProgress.DoomedForever | disktest-lib/src/stream.rs:131-134 | a worker that goes to sleep after the last wakeup stays there in every run, since abort is not checked under the lock |
| StreamProgress.StopCanHang | disktest-lib/src/stream.rs:101-134 | for every configuration such a state is reachable from the start: the unconditional claim is false |
| Interleave.PosCounts | disktest-lib/src/stream_aggregator.rs:156-164 | the iteration count that activate computes for stream i is the number of chunk indices below the seek position that are congruent to i modulo N |
| Interleave.GlobalAt | disktest-lib/src/stream_aggregator.rs:192-207 | byte j of chunk g belongs at position g * chunk size + j |
| Interleave.ChunkByte | disktest-lib/src/stream.rs:105-113 | byte o of chunk g is byte o of what generator g mod N puts out from its chunk g div N on, with all bits inverted if and only if inversion was asked for |
| Interleave.GlobalByte | disktest-lib/src/stream.rs:105-113 | the same of every position p of the whole stream, with g = p div the chunk size and o = p mod it |
| Interleave.InvertedStream | disktest-lib/src/stream.rs:108-112 | inverting the pattern inverts every bit of the whole stream, and nothing else |
| AggregatorInvariant.RunAggInv | disktest-lib/src/stream_aggregator.rs:124-206 | every run of the whole machine keeps every stream's invariant, the position of every stream, the turn, and that held chunks have a cache |
| AggregatorInvariant.ReplyIsNext | disktest-lib/src/stream_aggregator.rs:192-199 | the chunk that the stream in turn is about to return is the next one of the sequential stream |
| AggregatorInvariant.ScheduleIndependence | disktest-lib/src/stream_aggregator.rs:192-220 | in every interleaving of N workers and the consumer, through any activations, drops and foreign pushes, the chunks returned after an activation at chunk c are the sequential stream from c on: chunk k is block (c+k) div N of generator (c+k) mod N. What its bytes are, Interleave.GlobalByte says |
| AggregatorInvariant.SeekIsSkipping | disktest-lib/src/stream_aggregator.rs:135-169 | activating at a chunk yields, in any run, the suffix of what activating at 0 yields in any other run |
| AggregatorInvariant.OffsetOk | disktest-lib/src/stream_aggregator.rs:156-169 | every thread offset is a multiple of the base size and stands for the counted number of chunks |
| AggregatorInvariant.NothingFails | disktest-lib/src/stream_aggregator.rs:38-48 | in no run is an error flag set, does a worker panic, does get_chunk of an active aggregator fail, or does a dropped chunk find no cache |
| Allocation.BoundedAllocation | disktest-lib/src/stream_aggregator.rs:199-206 | if the consumer never holds more than `limit` chunks, no worker allocates more than MAX_THRES + limit buffers in one activation, in runs of any length, although every buffer goes to the next stream's cache |
| AllocationBound.BoundIsReached | disktest-lib/src/stream.rs:101-127 | the bound is tight: for every configuration and every `limit` a state is reached in which a worker has allocated MAX_THRES + `limit` buffers while the consumer never held more than `limit` chunks |
| Allocation.TurnBudget | disktest-lib/src/stream_aggregator.rs:38-48 | when it is a stream's turn, all buffers of its predecessor's chunks are back but for those in the consumer's hands |
| StreamAgg.RoundToChunk | disktest-lib/src/stream_aggregator.rs:135-151 | the offset is rounded down to a multiple of the chunk size and the index is its quotient, in 64-bit arithmetic without overflow |
| StreamAgg.ThreadOffset | disktest-lib/src/stream_aggregator.rs:156-164 | for any 64-bit offset and any N the 64-bit computation overflows nowhere and gives the stream's share of the earlier chunks |
| StreamAgg.DtStreamAgg.Activate | disktest-lib/src/stream_aggregator.rs:124-176 | fails exactly on a sector size that does not divide the chunk size; else every stream stands at its offset for the rounded seek; it always returns if every stream is stoppable before the call, as those of a new aggregator are, and fails to return only if a worker is doomed |
| AggregatorStop.CallHangsIff | disktest-lib/src/stream.rs:203-211 | from any reachable idle state, some schedule of the activate or of the drop of the aggregator leads to a join that never returns, if and only if some stream has a worker that has neither returned nor sleeps |
| AggregatorStop.DropCanHang | disktest-lib/src/stream.rs:328-332 | for every configuration an active, idle aggregator is reached whose drop may hang |
| AggregatorStop.HungForever | disktest-lib/src/stream.rs:207-209 | such a join is never left, in any run of the whole machine |
| StreamAgg.DtStreamAgg.Shutdown | disktest-lib/src/stream.rs:328-332 | the drop stops and joins every stream, after which no thread is alive; it always returns if every stream is stoppable before it, and fails to return only if a worker is doomed |
| StreamAgg.DtStreamAgg.Join | disktest-lib/src/stream.rs:207-209 | the join blocks for ever exactly when the worker is doomed, under every schedule |
| StreamAgg.DtStreamAgg.GetChunk | disktest-lib/src/stream_aggregator.rs:192-207 | a returned chunk is the next of the sequential stream; an empty poll leaves the worker nearer to its next send, or as near and awake |
| StreamAgg.DtStreamAgg.WaitChunk | disktest-lib/src/stream_aggregator.rs:209-220 | terminates under fair scheduling and returns the next chunk of the sequential stream |
| StreamAgg.DtStreamAgg.DropChunk | disktest-lib/src/stream_aggregator.rs:38-48 | dropping the held chunk is always possible and changes neither position nor output |
| BufCache.BufCache.NewConsumer | disktest-lib/src/bufcache.rs:29-33 | the consumer gets an empty channel of its own; channels of different consumers are never the same |
| BufCache.BufCache.Push | disktest-lib/src/bufcache.rs:35-45 | panics exactly for an unknown consumer; else the buffer is appended to that consumer's queue, or lost if its worker is gone, and no other queue changes |
| BufCache.BufCacheCons.Pull | disktest-lib/src/bufcache.rs:52-61 | the oldest buffer, or a new one, brought to the wanted length; the rest of the queue stays |
| BufCache.PullIsStep | disktest-lib/src/stream.rs:102-104 | Pull on a channel does to it what the worker's pull step does in the stream machine |
| BufCache.NewConsumerIsStep | disktest-lib/src/stream.rs:232-232 | the channel that a start makes stands for the machine's cache after the start step |
| BufCache.ReleaseIsStep | disktest-lib/src/stream.rs:137-137 | the end of a worker drops the receiver, as the worker's last step does in the stream machine |
| BufCache.PushIsStep | disktest-lib/src/stream_aggregator.rs:46-47 | Push does what a push does in the stream machine |
| BufCache.PushAllPullAll | disktest-lib/src/bufcache.rs:35-61 | any buffers pushed come back in order, each with the wanted length |
| Crc64.GenLut | disktest-lib/src/generator/crc.rs:21-35 | entry b of the table is what eight bit steps make of b |
| Crc64.TableByte | disktest-lib/src/generator/crc.rs:41-46 | one table lookup is eight bit steps on the state with the byte xored in |
| Crc64.Update | disktest-lib/src/generator/crc.rs:41-46 | the table-driven CRC equals the bitwise CRC for every state and byte string |
| Crc64.CrcCollapse | disktest-lib/src/generator/crc.rs:41-46 | over n <= 8 bytes the CRC is 8n bit steps on the state xor the little-endian data |
| Crc64.CheckValue | disktest-lib/src/generator/crc.rs:17-46 | the polynomial, the start value and the final inversion are those of CRC-64/XZ: the CRC of the digits 1 to 9 is the published check value |
| CrcStream.WordIsXzCrc64 | disktest-lib/src/generator/crc.rs:89-104 | word j of block c is the CRC64 of section 6 of the .xz file format specification, little-endian, of the folded seed, the 8 counter bytes and the bytes 0 to j |
| Crc64.CrcAppend | disktest-lib/src/generator/crc.rs:90-98 | the CRC can be continued: over a concatenation it is the CRC of the second part from the state after the first |
| Crc64.StepUnstep | disktest-lib/src/generator/crc.rs:17-31 | since the polynomial has the top bit set, the bit step has a two-sided inverse |
| Crc64.CrcStateInjective | disktest-lib/src/generator/crc.rs:41-46 | over data of any length, equal results if and only if equal states |
| Crc64.CrcDataBijective | disktest-lib/src/generator/crc.rs:41-46 | for every state and every target there is exactly one 8-byte input that leads there, and it is given |
| Fold.FoldBytes | disktest-lib/src/util.rs:181-191 | byte j of the output is the exclusive or of all input bytes at indices congruent to j; output size 0 gives nothing |
| Fold.ShortInput | disktest-lib/src/util.rs:178-180 | an input no longer than the output is kept and filled up with zeros |
| Fold.OneByte | disktest-lib/src/util.rs:181-191 | changing one input byte changes exactly one output byte, by the same bits |
| CrcGenerator.LeBytesInjective | disktest-lib/src/generator/crc.rs:92-92 | below 2^64, equal counter bytes if and only if equal counters |
| CrcGenerator.LeBytesDigit | disktest-lib/src/generator/crc.rs:92-92 | byte i of the counter's bytes is digit i of the counter to the base 256 |
| CrcGenerator.GeneratorCrc.constructor | disktest-lib/src/generator/crc.rs:62-72 | a new generator holds the seed folded into 8 bytes, a correct table and counter 0 |
| CrcGenerator.GeneratorCrc.Next | disktest-lib/src/generator/crc.rs:81-110 | the whole buffer is overwritten with the next blocks, whatever it held, and the counter advances modulo 2^64 |
| CrcGenerator.GeneratorCrc.FillBlock | disktest-lib/src/generator/crc.rs:95-108 | the 256 words of one block, at their place, and nothing before them |
| CrcGenerator.GeneratorCrc.Seek | disktest-lib/src/generator/crc.rs:113-125 | succeeds exactly on multiples of the base size, and leaves the counter alone otherwise |
| CrcStream.BlocksAppend | disktest-lib/src/generator/crc.rs:81-110 | generating a + b blocks is generating a, then b |
| CrcStream.AfterSeek | disktest-lib/src/generator/crc.rs:113-125 | after a seek to block k a new generator yields the blocks from k on |
| CrcStream.AfterSkip | disktest-lib/src/generator/crc.rs:81-125 | generating and discarding k blocks leads to the very same |
| CrcStream.NeverRepeats | disktest-lib/src/generator/crc.rs:81-110 | at two block numbers, a word at the same place is equal if and only if the 64-bit counter is: different blocks differ in every one of their 256 words |
| CrcStream.SeedSeparation | disktest-lib/src/generator/crc.rs:62-72 | seeds with equal folds give equal streams, seeds with different folds differ in every aligned word |
| CrcStream.OneByteSeparates | disktest-lib/src/generator/crc.rs:62-72 | two seeds that differ in one byte share no aligned word |
| CrcStream.ChunksDiffer | disktest-lib/src/stream.rs:107-116 | in the interleaved stream, inverted or not, two chunks of one generator share a word at the same place only if they are the same chunk |
| CrcStream.ThreadsDiffer | disktest-lib/src/stream.rs:72-80 | every thread runs a generator of its own: at the same offset, inverted or not, two threads share a word at the same place if and only if the 8-byte folds of their thread seeds are equal |
| CrcStream.CrcIsLawful | disktest-lib/src/generator/crc.rs:75-110 | the CRC streams of threads with any seeds satisfy the generator contract |
| CrcStream.CrcDefault | disktest-lib/src/generator/crc.rs:54-60 | so it does with the program's own constants: watermarks 10 and 6, blocks of 2048 bytes, 1536 to a chunk; its chunks are 3 MiB and a multiple of 512 and 4096 |
| CrcStream.SeekAndNext | disktest-lib/src/stream.rs:84-105 | what the generator objects put out is what the stream is made of: the generator object on thread t's seed, seeked to any multiple of the base size, gives with its k-th further call the contract's blocks of thread t that are k chunks after the offset, even when the counter has wrapped around |
| Device.Disk.Write | disktest-rawio/src/linux.rs:242-258 | Ok means that all bytes are stored; out of space, or an error, that a prefix is; a device of fixed size is out of space exactly when it is written past its end, and has then stored all that fits |
| Device.Disk.Read | disktest-rawio/src/linux.rs:229-240 | a possibly short read of what is on the device; nothing is read only at the end or if nothing is asked for |
| DisktestFile.File.DoOpen | disktest-lib/src/disktest.rs:68-75 | opens at most once; a new handle starts at position 0 with nothing to drop |
| DisktestFile.File.Close | disktest-lib/src/disktest.rs:78-97 | drops the caches of exactly the accounted range, if it is not empty, accounts for it once, and reports whether that succeeded |
| DisktestFile.File.Seek | disktest-lib/src/disktest.rs:107-120 | flushes what has been written first; on success the accounting starts at the new position |
| DisktestFile.File.Sync | disktest-lib/src/disktest.rs:130-136 | syncs an open handle exactly once, and reports whether that succeeded |
| DisktestFile.File.Write | disktest-lib/src/disktest.rs:146-156 | stores like the device, and accounts for the full length unless the device reported an error |
| DisktestFile.DropCovers | disktest-lib/src/disktest.rs:78-156 | for any history of the handle, the dropped range contains every successfully written byte if and only if what failed writes stored and reads skipped before the last successful write is made up for by the excess credit of out-of-space writes; without those, if and only if no successful write came after a read or after a failed write that stored something |
| DisktestFile.DropEndsAtPosition | disktest-lib/src/disktest.rs:78-156 | if all writes complete, drop_offset + drop_count is the file position |
| DropAccounting.CoveredIff | disktest-lib/src/disktest.rs:146-156 | the same over any sequence of events without out-of-space |
| DropAccounting.CoveredExactly | disktest-lib/src/disktest.rs:146-156 | with out-of-space events too: covered if and only if the bytes lost before the last successful write are made up for by the bytes credited in excess |
| DropAccounting.CoveredGenerally | disktest-lib/src/disktest.rs:146-156 | the same in one statement for any sequence of events, with or without a successful write |
| DisktestFile.FailThenWrite | disktest-lib/src/disktest.rs:78-156 | on any handle that has just been seeked: a write that fails after storing something, then one that succeeds, then close: the range that is dropped ends before the bytes that the second write stored |
| DisktestFile.FailedThenWritten | disktest-lib/src/disktest.rs:146-156 | the witness: the device may fail a write of ten bytes after five and then take ten; a handle with these two writes has ten bytes accounted for at position fifteen, and does not cover them |
| DiskStream.OverlayKeeps | disktest-lib/src/disktest.rs:423-468 | storing stream bytes where they belong keeps every written position good, whatever overlaps |
| Disktest.Disktest.Init | disktest-lib/src/disktest.rs:363-369 | on success stream and file stand at the seek rounded down to a chunk; it fails on the sector size exactly if that does not divide the chunk size, which is 512 for a medium without one; it always returns on a new Disktest, or whenever every worker can be stopped |
| Disktest.Disktest.WriteLoop | disktest-lib/src/disktest.rs:429-466 | however it ends, what has been stored are stream bytes at their positions; a device of fixed size that got full has been filled to its end, and what is counted as written is that, rounded down to whole chunks; it ends with an error or an abort if and only if there was one; the abort flag is looked at after every completed write but the last, and obeyed |
| Disktest.Disktest.Write | disktest-lib/src/disktest.rs:423-468 | the same for a whole call; a bounded success wrote all, an unlimited one stopped because the device was full and reports the whole chunks of what was available; every failure has its reason; a success has synced and then closed the handle, both successfully, and any other end after the first chunk has tried to; on a new Disktest the call always returns; the last dropped range covers what was written, and after a bounded success it is exactly that |
| Disktest.Disktest.FindMismatch | disktest-lib/src/disktest.rs:507-520 | the least differing index; the panic after the loop is unreachable |
| Disktest.Disktest.VerifyLoop | disktest-lib/src/disktest.rs:537-590 | for every content and every pattern of short reads: success means all available bytes were read and agree, a mismatch is the first difference; the abort flag is looked at after every successful read but the last, and obeyed |
| Disktest.Disktest.Verify | disktest-lib/src/disktest.rs:523-593 | Ok(n) with n = min(max_bytes, bytes to the end) if and only if those bytes equal the stream, else the least differing position; any other outcome only after an I/O error, an abort or with a sector size that does not fit; the handle is closed at any end after the first read, and a success has closed it without an error; on a new Disktest the call always returns, else it fails to return only if a worker cannot be joined |
| Disktest.Disktest.Shutdown | disktest-lib/src/stream.rs:328-332 | the drop of a Disktest returns whenever every worker can be stopped, and fails to return only if one is doomed |
| Disktest.WriteThenVerify | disktest/src/main.rs:109-120 | round trip, with a new Disktest for each half, dropped at its end as in the program: a bounded write verifies to the same count; an unlimited write that fills a device of fixed size verifies to all that remained of it, of which the write reported the whole chunks; the two calls return, and fail only for a reason; either drop may hang, which is an outcome of its own, unless its half failed before it started a worker |
| Disktest.Disktest.WriteMany | disktest-lib/src/disktest.rs:423-468 | after any sequence of writes at any seeks, successful or not, every position ever written holds its byte of the stream; what was reported as written is, and that is all that was asked for or fills the device; every failure has its reason |
| Disktest.Disktest.VerifyCovered | disktest-lib/src/disktest.rs:523-593 | a verification that starts and ends inside what was written by any earlier calls never reports a mismatch, and on a new Disktest it always returns |

## Where the code does not do what one expects

- `stop` stores abort = true, wakes the worker once and joins it. The worker loads abort at line 101
  and sets `sleeping` at line 131 of `disktest-lib/src/stream.rs`, and does not look at abort again
  under the lock. If the wake falls between the two, the worker sleeps with nobody left to wake it
  and the join never returns. `StreamProgress.StopJoins` says that this is the only way,
  `StreamProgress.StopCanHang` that it can happen, and `StreamProgress.StopCanHangIff` for which
  states of the worker at the entry of `stop`. In the methods, `blocked` and `Hung` stand for a call
  that never returns; such a call has no result in the program. `write` and `verify` themselves
  return in the program, which makes a new Disktest for each, whose first activation has no worker to
  join. But at the end of its scope (lines 110 to 113 and 116 to 119 of `disktest/src/main.rs`) the
  Disktest is dropped, and every stream is stopped, whatever its worker is doing. So every write and
  every verification that has started its workers ends in such a stop, and the program may hang after
  it, before the verification begins or before it exits. `AggregatorStop.CallHangsIff` says exactly
  when, and `AggregatorStop.DropCanHang` that it can happen.
- A write that fails after it has stored a prefix moves the file position, but not drop_count. If a
  later write on the same handle succeeds, part of it lies beyond the range whose caches are
  dropped. The program itself never writes again after an error, so `Disktest.Disktest.Write` is not
  affected. `DisktestFile.DropCovers` has the exact condition. A write that runs out of space is accounted for in full, which is more than it stored.
- The message of a failed verification reports the position relative to the rounded start, not on
  the device. `Disktest.Disktest.Verify` states it so.

## Left out

- Memory orderings weaker than sequential consistency, poisoned locks and thread priorities.
- StreamAgg.DtStreamAgg.WaitChunk: termination assumes that while the consumer sleeps, the worker of the stream in turn takes at least one step, unless it is blocked.
- StreamAgg.DtStreamAgg.Activate: is called with no chunk held, as write and verify do; the machine of `Aggregator.dfy` has no such restriction.
- StreamAgg.DtStreamAgg.GetChunk: likewise; what holds with chunks in hand is stated of the machine.
- StreamAgg.DtStreamAgg.Shutdown: the drop of the chunks that the consumer still holds, which there are none of after write and verify.
- StreamAgg.DtStreamAgg.Join: what the program does after a join that never returns is nothing; the method returns `blocked` instead.
- StreamProgress.StopJoins: "can join" is the existence of a run; that no schedule of a worker that keeps running prevents it is StreamProgress.ExitStep with StreamProgress.ExitIsNear.
- CrcGenerator.GeneratorCrc.Next: the counter wraps around as in a release build; a debug build panics after 2^64 blocks.
- The static, once-initialised CRC table: every generator object builds its own, which is the same.
- ChaCha, PBKDF2, SHA-512 and the choice of a seed: thread seeds and ChaCha blocks are parameters.
- The operating system: opening flags, block and character devices, sector geometry, ioctl, cache dropping itself; the device is a byte sequence with a position. The Windows back end, which may write partially, is not modelled.
- Device.Disk.Read: errors, short counts and the moment a device runs out of space are arbitrary choices; data read back is what was stored.
- Overflow of drop_count and of file positions beyond 64 bits: they are unbounded numbers here.
- The drop of a file handle that is still open, which closes it and may panic.
- Logging, rates, printing, quiet levels, parsing of sizes, the command line, signals and rounds; the abort request is an arbitrary early exit.
