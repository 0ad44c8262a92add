# Verified models of the kio runtime and its libraries

This project models the hardest parts of an io_uring based asynchronous runtime and of the
libraries it is built with, and proves what they promise:

- the lock-free queue's free list, its optimistic dequeue and its circular block index
  (`FreeList`, `OptimisticDequeue`, `BlockIndex`, the two joined in `QueueDelivery`, `Words`), as
  step systems over any number of threads;
- streaming against one-shot hashing for XXH3, XXH32 and XXH64 (`Xxh3`, `XxhLanes`);
- the RESP parser, its iterator, the writer and the buffer between them
  (`RespParser`, `RespIterator`, `RespTrees` with the wire format apart from the parser,
  `RespRoundTrip`, `IoBuffer`);
- the log-structured key-value store: record and hint formats, concurrent appends, chunked
  recovery, file ids, the store itself, compaction with clients running at every suspension
  point, closing and reopening, and the per-file counters (`Bitcask*`, `FileIds`);
- cross-thread completion with a coalesced wake, the intrusive pending list and the pool's ring
  queue (`Completion`, `PendingList`, `BlockingPool`);
- the asynchronous baton with its post/timeout race (`Baton`).

`dafny verify dfyconfig.toml` checks everything. Concurrent code is a state with one step per
atomic operation (or per critical section), and main results are about every state reachable by
any sequence of steps. Code that updates objects is a class whose methods are proved against
functions or abstract states. Clocks, read sizes, hash-map iteration orders, directory listings
and what clients do during a suspension are parameters, so each result holds for all of them.

## Where a promise does not hold

- The optimistic dequeue compares counters on 64-bit words. `DecisionExact` gives the exact
  condition under which the decision is right, `SafeWithFewAttempts` shows that 2^63 attempts are
  safe, and `HeadCanPassTail` is a run beyond that, with at most one element in the queue at a
  time, in which the head passes the tail.
- `Recover()` prefers hint files, and hint files carry no tombstones: a key put in one file and
  deleted in a later one comes back (`DeletedKeyReturns`). `RecoverExact` says exactly when the
  live index is rebuilt.
- A simple string containing CRLF does not survive the RESP round trip (`LineRoundTrip`, both ways).
- A timed waiter of the baton can go on twice: exactly when the post or the timer that decided
  its status reads the handle after it was stored and before the coroutine has gone to sleep
  (`ContinuesTwiceIff`; `CanContinueTwice` for the post, `TimerCanContinueTwice` for the timer).
- Recovery replays files in id order and compares no timestamps, and compaction copies old records
  to a file with a newer id than the active one: a put after a compaction is undone by the next
  restart (`OldValueReturns`). `ReopenedExact` says exactly when a restart gives the index back.
- The counters of a compacted file count every copy as live (in every other case `Run` shows them
  exact, and `Conserved` says what they add up to). `Compact` and `TotalledCounts` say
  that they are exact if and only if no copied record had lost its key when they were written;
  `DeletedWhileCopying` is a case in which they stay wrong, `DeletedAfterMove` one in which they are
  negative for a while. `UnderflowsIff` says exactly when a counter goes below zero. All other files
  keep the counters they should have.
- `Get` keeps a reference into the index across a suspension. If a compaction repoints the key
  meanwhile it reads the wrong file: `GetAcrossMove` says, for any bytes, exactly when that is
  harmless, and `GetMissesLiveKey` is a case in which it is not.
- File ids run out: 2^16 ids within one second (or while the clock stands behind the last id) and
  the code reuses one. `FileIdGenerator.Next` says exactly when; the store's model refuses the
  operation there instead, and `Run` says that it does so only there.
- The entry layout comment in `bitcask/include/entry.h` puts the value length after the key, and
  the hint comment gives 4-byte offsets; the models follow the code.

## Model

| member | source | states |
|---|---|---|
| `FreeList.EveryRunSafe` | external_libraries/concurrentqueue.h:1450-1538 | in every interleaving of any number of add and try_get threads: the list is the chain from the head, every node's count is its list membership plus the threads holding a reference, no node is with two owners, and a getter about to swap the head holds the right successor |
| `FreeList.NothingLost` | external_libraries/concurrentqueue.h:1464-1538 | when no call is in progress every node is with a client or on the list, never both, and its count and flag say which: no added node is lost |
| `FreeList.TryGetTakesFirst` | external_libraries/concurrentqueue.h:1474-1510 | from every reachable state with no call in progress, try_get run to its end takes exactly the first node of the list and hands it out; on an empty list it changes nothing |
| `FreeList.AddPutsFirst` | external_libraries/concurrentqueue.h:1459-1472 | from every such state add run to its end puts its node in front of the list |
| `FreeList.NullOnlyIfEmpty` | external_libraries/concurrentqueue.h:1479-1510 | in every interleaving, a try_get that ends without a node met a moment during the call at which the list was empty |
| `FreeList.NextStable` | external_libraries/concurrentqueue.h:1486-1512 | no step moves the next pointer of a node that is on the list or referenced, so the head swap cannot suffer ABA |
| `FreeList.StepDo` | external_libraries/concurrentqueue.h:1450-1538 | every atomic step, including the 32-bit wrap of the reference word, keeps the invariant |
| `FreeList.RunKeepsInv` | external_libraries/concurrentqueue.h:1450-1538 | the invariant holds after every run |
| `FreeList.InvNodeSafe` | external_libraries/concurrentqueue.h:1506-1537 | every node is in exactly one place, and its count is its list membership plus the references held |
| `FreeList.InvThreadsSafe` | external_libraries/concurrentqueue.h:1492-1537 | the should-be-on-freelist bit is clear and the count at least two when a getter wins, no two threads claim one node, and the successor read is still right |
| `FreeList.ChainUnique` | external_libraries/concurrentqueue.h:1470-1500 | the list is determined by the head and the next pointers |
| `Words.CircularLessExact` | external_libraries/concurrentqueue.h:477-483 | circular_less_than on reduced words is the true comparison exactly inside a half-word window |
| `OptimisticDequeue.ClaimedOnceAfterEnqueue` | external_libraries/concurrentqueue.h:1955-2052 | one producer, any number of single or bulk consumers, stale overcommit values: on every run with no misled decision headIndex never passes tailIndex and every index below it belongs to exactly one claim, made after the enqueue |
| `OptimisticDequeue.CallGets` | external_libraries/concurrentqueue.h:1955-2006 | from every state reached by a clean run with nobody mid-call and fewer than 2^63 elements queued, a call for up to max elements run to its end gets min(max, tail - head) of them, as one claim from the head on |
| `OptimisticDequeue.EmptyOnlyIfNothingLeft` | external_libraries/concurrentqueue.h:1959-1998 | in every interleaving, a call for at least one element that ends without a claim came to a test at which tail - (count - overcommit) left nothing |
| `OptimisticDequeue.FirstTestExact` | external_libraries/concurrentqueue.h:2250-2257 | the first test sends a call home exactly when the tail it read is not above count - overcommit |
| `OptimisticDequeue.SecondTestExact` | external_libraries/concurrentqueue.h:2259-2268 | after its fetch_add a call claims all that tail - (count - overcommit) allows, up to what it asked for, and gives the rest back |
| `OptimisticDequeue.CountersExact` | external_libraries/concurrentqueue.h:1978-2003 | with nobody mid-call count - overcommit is the head: what was counted and not taken has been given back |
| `OptimisticDequeue.DecisionExact` | external_libraries/concurrentqueue.h:1978-2003 | a decision takes more than the integer formula tail - (count - overcommit) allows if and only if the consumer is so far past the tail that the 64-bit difference looks negative |
| `OptimisticDequeue.SafeWithFewAttempts` | external_libraries/concurrentqueue.h:2248-2338 | with at most 2^63 attempts in all the claim holds unconditionally |
| `OptimisticDequeue.FewAttemptsRun` | external_libraries/concurrentqueue.h:1978-2003 | such a run never misleads a decision |
| `OptimisticDequeue.HeadCanPassTail` | external_libraries/concurrentqueue.h:1955-2003 | a run of three consumers, with never more than one element in the queue, in which headIndex passes tailIndex |
| `OptimisticDequeue.ManyRaces` | external_libraries/concurrentqueue.h:1978-2003 | any number of elements can be raced for by two consumers while a third still holds the overcommit it read before them |
| `OptimisticDequeue.ClaimsBelowTail` | external_libraries/concurrentqueue.h:1978-2003 | whatever was claimed and given back adds up so that claims stay below the tail |
| `OptimisticDequeue.TiledOnce` | external_libraries/concurrentqueue.h:2004-2017 | consecutive claims cover every index exactly once |
| `OptimisticDequeue.RunKeepsInv` | external_libraries/concurrentqueue.h:1955-2052 | the ticket invariant holds after every run |
| `BlockIndex.EveryLookupRight` | external_libraries/concurrentqueue.h:2008-2052 | in every reachable state, through block reuse, index growth and wrap-around, each resolved index is in the block it was written in, what is moved out is the element enqueued at that index, no index is moved out twice, and every claimed index is moved out or still owed by a consumer |
| `BlockIndex.EnqueuePublishes` | external_libraries/concurrentqueue.h:1849-1952 | from every reachable state between enqueues, with leeway, room in the index or to grow it, and a block to be had, an enqueue run to its end publishes its element after all the others |
| `BlockIndex.FreshGoesOn` | external_libraries/concurrentqueue.h:1872-1893 | with leeway a full index doubles and the enqueue goes on |
| `BlockIndex.StepOnce` | external_libraries/concurrentqueue.h:2018-2052 | no step moves an index out again or loses one that was claimed |
| `BlockIndex.LeewayExact` | external_libraries/concurrentqueue.h:1872-1880 | the leeway test refuses an enqueue exactly when the queue is within a block of half the words |
| `BlockIndex.LookupFromFront` | external_libraries/concurrentqueue.h:2008-2017 | every enqueued index not yet emptied resolves from the published front by the signed offset to its own block, where its element still is |
| `BlockIndex.FlagsSetOnce` | external_libraries/concurrentqueue.h:2018-2052 | a consumer about to set an emptiness flag always finds it clear: each is set once per use of the block |
| `BlockIndex.SlotForExact` | external_libraries/concurrentqueue.h:2008-2017 | the 64-bit slot arithmetic, masked, is the slot of the block number |
| `BlockIndex.OffsetExact` | external_libraries/concurrentqueue.h:2008-2017 | the signed, truncating offset of two words is the true block distance |
| `BlockIndex.GrownEntry` | external_libraries/concurrentqueue.h:2356-2393 | after growth every live entry is found at its place in the new index |
| `BlockIndex.RunKeepsInv` | external_libraries/concurrentqueue.h:1849-1952 | every producer and consumer step keeps the index invariant |
| `QueueDelivery.DeliveredOnce` | external_libraries/concurrentqueue.h:1955-2052 | the whole dequeue, counters and block index joined: on every run with no misled decision, and on every run of at most 2^63 attempts, every element moved out is the one enqueued at its index, no index is moved out twice, every index below the head is moved out or owed, and all of them are moved out when no dequeue is under way |
| `QueueDelivery.DequeueGets` | external_libraries/concurrentqueue.h:1955-2052 | from every state reached by a clean run with no dequeue under way and fewer than 2^63 elements queued, a dequeue of up to max elements run to its end moves out the oldest ones in order: max of them, or all there are |
| `QueueDelivery.StepCounter` | external_libraries/concurrentqueue.h:1978-2006 | what the optimistic counters give a consumer is below the tail, so that the block index can resolve it |
| `QueueDelivery.RunKeepsInv` | external_libraries/concurrentqueue.h:1849-2052 | both invariants, and head and tail in common, hold after every run |
| `QueueDelivery.FewAttemptsRun` | external_libraries/concurrentqueue.h:1978-2003 | a run of at most 2^63 attempts misleads no decision |
| `Xxh3.StreamEqualsOneShot` | external_libraries/xxhash/xxhash.h:6700-6848 | for every input and every split into updates the digest equals the one-shot hash of the concatenation |
| `Xxh3.HashLong` | external_libraries/xxhash/xxhash.h:6230-6260 | the block loop with eager scrambling computes the stripe-by-stripe reference and the last 64 bytes |
| `Xxh3.RunInNumbers` | external_libraries/xxhash/xxhash.h:6236-6249 | with the default 192-byte secret a block is sixteen stripes: stripe i is accumulated at secret offset 8 * (i % 16), and after every 1024 bytes the accumulators are scrambled |
| `Xxh3.HashInNumbers` | external_libraries/xxhash/xxhash.h:6230-6260 | above 240 bytes the hash is the whole 1024-byte blocks that leave a byte over, the whole stripes of the rest that leave a byte over, and the last 64 bytes at secret offset 121 |
| `Xxh3.OneBlockInNumbers` | external_libraries/xxhash/xxhash.h:6251-6260 | from 241 to 1024 bytes nothing is scrambled |
| `Xxh3.HashBlocks` | external_libraries/xxhash/xxhash.h:6246-6249 | whole blocks, each followed by a scramble |
| `Xxh3.BlockCount` | external_libraries/xxhash/xxhash.h:6239-6253 | full blocks plus remaining stripes are all stripes that leave a byte over |
| `Xxh3.ConsumeStripes` | external_libraries/xxhash/xxhash.h:6655-6690 | any number of stripes from any place in a block continues the reference run, scrambling at each block end |
| `Xxh3.RunOfStripes` | external_libraries/xxhash/xxhash.h:6666-6675 | a run of stripes inside a block is the reference run, before the scramble at its end |
| `Xxh3.RunExtend` | external_libraries/xxhash/xxhash.h:6700-6780 | what has been consumed does not depend on later input |
| `Xxh3.OneShot` | external_libraries/xxhash/xxhash.h:6402-6424 | the one-shot function is the reference hash |
| `Xxh3.Stream.Update` | external_libraries/xxhash/xxhash.h:6700-6780 | the state always stands for everything fed so far |
| `Xxh3.Stream.DrainBuffer` | external_libraries/xxhash/xxhash.h:6738-6750 | a completed buffer is consumed whole |
| `Xxh3.Stream.ConsumeBulk` | external_libraries/xxhash/xxhash.h:6752-6768 | whole stripes straight from the input, the last one kept at the buffer's end |
| `Xxh3.Stream.DigestLong` | external_libraries/xxhash/xxhash.h:6798-6830 | the last stripe, part of it rebuilt from the buffer's tail, is the last 64 bytes of the input |
| `Xxh3.Stream.Digest` | external_libraries/xxhash/xxhash.h:6835-6848 | the digest is the reference hash of everything fed, and leaves the state as it was |
| `XxhLanes.StreamEqualsOneShot` | external_libraries/xxhash/xxhash.h:3246-3305 | XXH32 and XXH64: every split gives the one-shot hash, also past the wrap of the 32-bit length |
| `XxhLanes.OneShot` | external_libraries/xxhash/xxhash.h:3171-3191 | the one-shot functions are the reference |
| `XxhLanes.InitInNumbers` | external_libraries/xxhash/xxhash.h:3015-3023 | the four lanes start from seed + prime1 + prime2, seed + prime2, seed and seed - prime1, on words |
| `XxhLanes.Xxh64InNumbers` | external_libraries/xxhash/xxhash.h:3669-3690 | blocks of 32 bytes, lane j taking the j-th 8-byte word of each; below 32 bytes the seed plus prime5; then the length and the rest |
| `XxhLanes.Xxh32InNumbers` | external_libraries/xxhash/xxhash.h:3171-3191 | the same with blocks of 16 bytes, words of 4 and 32-bit sums |
| `XxhLanes.ConsumeLong` | external_libraries/xxhash/xxhash.h:3032-3053 | the do-while loop feeds all whole blocks and leaves the rest |
| `XxhLanes.FeedTwice` | external_libraries/xxhash/xxhash.h:3246-3286 | feeding two pieces is feeding their concatenation |
| `XxhLanes.OverLength` | external_libraries/xxhash/xxhash.h:3669-3690 | the bytes left over after the whole blocks are the length modulo the block length |
| `XxhLanes.Stream.Update` | external_libraries/xxhash/xxhash.h:3742-3784 | the state stands for everything fed so far |
| `XxhLanes.Stream.Count` | external_libraries/xxhash/xxhash.h:3246-3260 | the wrapping length and the sticky large_len flag |
| `XxhLanes.Stream.Digest` | external_libraries/xxhash/xxhash.h:3787-3800 | the digest is the reference hash of everything fed |
| `IoBuffers.RunRefinesQueue` | include/kio/io.hpp:58-285 | every run of Append, reads into the writable span with Commit(n), Commit, Rollback, Consume, EnsureWritable, Reserve and Clear shows exactly the two byte strings a plain queue would hold |
| `IoBuffers.Receive` | include/kio/io.hpp:106-157 | bytes received with Commit(n) while others are staged: n bytes are published, the staged ones first |
| `IoBuffers.RoundUpPow2` | include/kio/io.hpp:238-243 | the least power of two not below the argument |
| `IoBuffers.IoBuffer.EnsureWritableBytes` | include/kio/io.hpp:106-124 | always delivers the room asked for, published and staged bytes unchanged; moves nothing if the room is there, compacts in place if at least 1024 consumed bytes make it, and otherwise takes a bigger array |
| `IoBuffers.IoBuffer.Reserve` | include/kio/io.hpp:211-234 | growth keeps both parts byte for byte |
| `IoBuffers.IoBuffer.Compact` | include/kio/io.hpp:254-270 | moving the live bytes to the front keeps both parts |
| `IoBuffers.IoBuffer.CommitWritten` | include/kio/io.hpp:151-157 | advances both positions by as many bytes as there was room for, so that the oldest unpublished bytes become published |
| `IoBuffers.IoBuffer.Commit` | include/kio/io.hpp:160-160 | publishes exactly what was staged |
| `IoBuffers.IoBuffer.RollbackPending` | include/kio/io.hpp:163-163 | removes exactly the uncommitted bytes |
| `IoBuffers.IoBuffer.Consume` | include/kio/io.hpp:166-177 | removes published bytes from the front, never staged ones |
| `IoBuffers.IoBuffer.Append` | include/kio/io.hpp:184-189 | staged bytes grow by exactly the data |
| `RespParser.VerdictFinal` | src/kio/parser.cpp:72-195 | any verdict but Incomplete is unchanged by appending bytes, and a frame depends on exactly its own bytes, at every depth |
| `RespParser.FrameExtend` | src/kio/parser.cpp:72-195 | appending bytes changes no verdict but Incomplete |
| `RespParser.FrameCut` | src/kio/parser.cpp:72-195 | a frame is found again in any prefix that contains it |
| `RespParser.FrameShallower` | src/kio/parser.cpp:72-77 | a successful parse succeeds alike at any smaller depth |
| `RespParser.FindFirst` | include/kio/resp/parser.h:115-124 | ReadLine finds the first CRLF, and none only if there is none |
| `RespParser.ParseFrame` | src/kio/parser.cpp:72-195 | a frame is at least three bytes, within the data and the size limit, and has the type of its first byte |
| `RespParser.ParseFrameInternal` | src/kio/parser.cpp:72-195 | the recursive procedure with its offset loop computes that function |
| `RespParser.ParseChildren` | src/kio/parser.cpp:178-185 | the loop over the children is the row of frames |
| `RespParser.RowAgrees` | src/kio/parser.cpp:178-185 | readers that agree where one succeeds find the same children |
| `RespIterator.Children` | src/kio/parser.cpp:150-232 | iterating any parsed aggregate at a depth no greater than the child depth never fails, yields the frames the parse found, element_count of them (twice that for maps and attributes), and ends at the parent's end |
| `RespIterator.FrameIterator.Next` | src/kio/parser.cpp:218-232 | the three refusals, and the move past exactly one child |
| `RespIterator.FrameIterator.constructor` | src/kio/parser.cpp:197-216 | starts after the header line, with the count doubled for maps and attributes |
| `RespIterator.Drain` | include/kio/resp/parser.h:57-75 | the caller's loop takes exactly the frames ahead |
| `RespIterator.FramesTile` | src/kio/parser.cpp:178-190 | the frames lie end to end |
| `RespIterator.RowInFrame` | src/kio/parser.cpp:197-232 | the same children inside the frame's own bytes |
| `RespRoundTrip.Conversation` | include/kio/resp/writer.h:20-85 | any number of values written and committed come out of the parser one by one, each one frame of exactly its bytes reading back as the value; a rolled-back value leaves no trace; the buffer ends empty |
| `RespTrees.RoundTrip` | src/kio/parser.cpp:72-195 | any tree of all fifteen types within the limits, lengths and counts spelled with any leading zeros, parses as one frame of exactly its bytes, whatever follows, with its payloads and, child by child, its items |
| `RespTrees.ParsedIsTree` | src/kio/parser.cpp:72-195 | conversely, whatever parses is the encoding of such a tree |
| `RespTrees.LanguageExact` | src/kio/parser.cpp:72-195 | the first n bytes are a frame if and only if they are the encoding of a tree within the limits |
| `RespTrees.NoFrameVerdict` | src/kio/parser.cpp:74-95 | too deep is Overflow, an unknown type byte InvalidProtocol, nothing yet or no line break yet Incomplete |
| `RespTrees.TextVerdict` | src/kio/parser.cpp:85-110 | one-line frames: a bad number, boolean or double is InvalidProtocol, one too long Overflow, any other a frame |
| `RespTrees.BlobVerdict` | src/kio/parser.cpp:112-148 | frames with a length: a bad length is InvalidProtocol, minus one a null, any other length out of range Overflow, bytes missing Incomplete, no line break behind them InvalidProtocol |
| `RespTrees.GroupVerdict` | src/kio/parser.cpp:150-190 | frames with a count: a bad count is InvalidProtocol, minus one a null array, any other negative count InvalidProtocol, then so many children, twice as many for maps and attributes, and all within the size limit |
| `RespTrees.FirstBadChild` | src/kio/parser.cpp:178-185 | the first child that is no frame decides the verdict of the parent |
| `RespTrees.IntTextExact` | src/kio/parser.cpp:13-22 | a text is read as a number if and only if it is its digits, perhaps after zeros and a minus, and the number fits 64 bits |
| `RespTrees.LineRoundTrip` | include/kio/resp/writer.h:20-35 | a simple string or error comes back whole if and only if it has no CRLF inside |
| `RespTrees.DecimalRoundTrip` | src/kio/parser.cpp:13-22 | printing then parsing a number gives it back exactly when it fits 64 bits |
| `RespTrees.BlobRoundTrip` | src/kio/parser.cpp:112-148 | arbitrary bytes survive the length prefix |
| `RespTrees.GroupRoundTrip` | src/kio/parser.cpp:150-190 | a group of items that each parse back parses back |
| `RespRoundTrip.ValueRoundTrip` | include/kio/resp/writer.h:20-70 | any tree of values the writer can express, within the limits, parses back as it was written, whatever follows |
| `RespRoundTrip.RespWriter.WriteLenPrefix` | include/kio/resp/writer.h:77-85 | appends type, number and line break to the staged bytes only |
| `RespRoundTrip.RespWriter.WriteBulkString` | include/kio/resp/writer.h:54-59 | appends the encoding of the bulk string |
| `RespRoundTrip.RespWriter.Write` | include/kio/resp/writer.h:20-70 | a whole tree appended is its encoding |
| `RespRoundTrip.Parser.NextFrame` | include/kio/resp/parser.h:93-98 | parses the published bytes only |
| `BitcaskEntry.DeserializeEncoded` | bitcask/src/entry.cpp:41-76 | reading back a written record gives it, whatever follows |
| `BitcaskEntry.DeserializeOnlyEncoded` | bitcask/src/entry.cpp:41-76 | conversely a record is only ever read from its own encoding |
| `BitcaskEntry.DeserializeCut` | bitcask/src/entry.cpp:43-56 | a record cut short asks for more data |
| `BitcaskEntry.DeserializeVerdict` | bitcask/src/entry.cpp:41-76 | from the bytes: more data is asked for exactly while the record, by its key length at byte 13 and its value length at byte 17, is not all there; it is corrupt exactly when it is and the checksum at byte 0 is not that of the rest |
| `BitcaskEntry.LittleEndian4` | bitcask/src/entry.cpp:13-39 | numbers are written least significant byte first |
| `BitcaskEntry.LittleEndian8` | bitcask/src/entry.cpp:13-39 | an 8-byte number is its low four bytes, then its high four |
| `BitcaskEntry.DeserializeExtend` | bitcask/src/entry.cpp:41-76 | a verdict other than need-more is final |
| `BitcaskEntry.PeekAgrees` | bitcask/src/compactor.cpp:36-58 | the compactor's reading without the checksum differs only on what the checksum would refuse |
| `BitcaskEntry.FormatIsLawful` | bitcask/src/entry.cpp:13-76 | the format satisfies all the laws the store relies on |
| `BitcaskEntry.ExtendParts` | bitcask/src/data_file.cpp:32-37 | extending the checksum part by part equals one pass |
| `BitcaskEntry.LocatedOnce` | bitcask/src/partition.cpp:388-393 | at most one record starts at an offset |
| `BitcaskEntry.BytesAt` | bitcask/src/partition.cpp:148-154 | the file's bytes at a record's offset are that record's |
| `BitcaskDataFile.BuildContiguous` | bitcask/src/entry.cpp:13-39 | the field-by-field constructor with the checksum patched in builds the encoding |
| `BitcaskDataFile.BuildGathered` | bitcask/src/data_file.cpp:118-150 | header, key and value of the gather writer are the same bytes |
| `BitcaskDataFile.ComputeCrc32c` | bitcask/src/data_file.cpp:18-38 | the incremental checksum is that of the whole body |
| `BitcaskDataFile.DataFile.Reserve` | bitcask/src/data_file.cpp:90-91 | space is taken before the write suspends, right after all space taken before |
| `BitcaskDataFile.DataFile.Land` | bitcask/src/data_file.cpp:94-94 | a write that lands later disturbs no other record, landed or not |
| `BitcaskDataFile.Disjoint` | bitcask/src/data_file.cpp:83-91 | reserved extents never overlap |
| `BitcaskDataFile.AllLanded` | bitcask/src/data_file.cpp:79-180 | once all writes have landed, in any order, the truncated file is the records end to end, in reservation order |
| `BitcaskLog.RecoverFromDataFile` | bitcask/src/partition.cpp:414-475 | however the reads fall, the result is one scan of the bytes read |
| `BitcaskLog.RecoverDataFromBuffer` | bitcask/src/partition.cpp:364-412 | the complete records in the buffer, each at its file offset; the rest stays |
| `BitcaskLog.ScanMore` | bitcask/src/partition.cpp:429-471 | a scan goes on over more bytes from where it stopped |
| `BitcaskLog.ScanIsReplay` | bitcask/src/partition.cpp:364-475 | scanning a file of whole records is replaying them |
| `BitcaskLog.RecoverDamaged` | bitcask/src/partition.cpp:364-475 | records followed by anything no complete record starts (a torn record, a corrupt one, padding) are recovered exactly, however the reads fall, and nothing recovered before is lost |
| `BitcaskLog.ScanKeepsRecords` | bitcask/src/partition.cpp:378-384 | a scan keeps exactly the records before such bytes and says whether it met a corrupt one |
| `BitcaskLog.TornRecord` | bitcask/src/partition.cpp:452-459 | a record cut short anywhere is such an end |
| `BitcaskLog.ZeroesAreNoRecord` | bitcask/src/partition.cpp:214-234 | so is the zero padding of a preallocated file, unless the checksum of seventeen zeros is zero |
| `BitcaskHints.WriteHintFile` | bitcask/src/partition.cpp:181-212 | whatever order the index is walked in, loading the file adds exactly the entries located in it |
| `BitcaskHints.RecoverFromHintFile` | bitcask/src/partition.cpp:477-519 | the loading loop computes its function of the bytes |
| `BitcaskHints.DecodeEncodedHint` | bitcask/src/entry.cpp:78-130 | a hint read back is the hint written |
| `BitcaskHints.LoadWritten` | bitcask/src/partition.cpp:494-515 | hints written one after the other are inserted one after the other |
| `BitcaskHints.LoadTruncated` | bitcask/src/partition.cpp:494-515 | of a hint file cut short the hints before the cut are kept |
| `BitcaskHints.TornHint` | bitcask/src/entry.cpp:78-130 | part of a hint is no hint |
| `BitcaskHints.HintBytesAt` | bitcask/src/entry.cpp:78-130 | timestamp at byte 0, offset at 8, size at 16, key length at 20, key at 24 |
| `BitcaskRecovery.RecoverExact` | bitcask/src/partition.cpp:536-555 | recovery from hint files and scans gives the live index if and only if no put it keeps was deleted later |
| `BitcaskRecovery.DeletedKeyReturns` | bitcask/src/partition.cpp:509-513 | a concrete directory in which a deleted key comes back from the hint files |
| `BitcaskRecovery.ScanRecoversAll` | bitcask/src/partition.cpp:546-554 | without hint files recovery is always exact |
| `BitcaskRecovery.RecoverCoversLive` | bitcask/src/partition.cpp:536-555 | recovery never loses or misplaces a live key |
| `BitcaskRecovery.InRecover` | bitcask/src/partition.cpp:536-555 | which keys come back, exactly |
| `BitcaskRecovery.InReplayFiles` | bitcask/src/partition.cpp:395-409 | a key is in the rebuilt index exactly when its last record is not a tombstone |
| `BitcaskRecovery.ReplayAt` | bitcask/src/partition.cpp:395-409 | a file decides the keys it mentions by their last record and leaves the others |
| `BitcaskRecovery.HintEqualsReplay` | bitcask/src/partition.cpp:191-199 | the entries located in a file are that file replayed alone |
| `BitcaskRecovery.RecoverInForce` | bitcask/src/partition.cpp:536-555 | recovery gives back any index whatever, also after compactions, if and only if on disk, in id order, each of its keys is given last where the index points and no other key is given |
| `BitcaskRecovery.RecoverLookup` | bitcask/src/partition.cpp:536-555 | the last file that has a put for a key, with nothing scanned after it, decides where the key is found |
| `BitcaskRecovery.NoTombstones` | bitcask/src/partition.cpp:536-555 | a directory without tombstones is always recovered exactly |
| `FileIds.DecodeEncode` | bitcask/include/file_id.h:38-52 | the three fields come back |
| `FileIds.EncodeDecode` | bitcask/include/file_id.h:38-52 | every 64-bit id is the encoding of its fields |
| `FileIds.CompareIsOrder` | bitcask/include/file_id.h:145-160 | within a partition comparing by time is comparing ids |
| `FileIds.SortRestoresOrder` | bitcask/src/partition.cpp:285-337 | however the directory is listed, sorting restores creation order |
| `FileIds.ScanDataFiles` | bitcask/src/partition.cpp:285-337 | the sorted listing holds every file once, by time |
| `FileIds.Place` | bitcask/src/partition.cpp:333-334 | where an id belongs in a sorted listing |
| `FileIds.FileIdGenerator.Next` | bitcask/include/file_id.h:94-123 | a new id is above every earlier one, even if the clock goes back, if and only if the sequence is not exhausted |
| `FileIds.FileIdGenerator.UpdateState` | bitcask/include/file_id.h:77-88 | the generator never moves back |
| `BitcaskAccounting.LiveFull` | bitcask/include/stats.h:15-27 | the live bytes and entries of a file never exceed its size and its records, and equal them if and only if every record is live |
| `BitcaskAccounting.SumSplit` | bitcask/include/stats.h:15-27 | any key can be split off the per-file sum |
| `BitcaskAccounting.GrandTotal` | bitcask/include/stats.h:15-27 | a weight taken file by file adds up, over all files, to the weight of the index |
| `BitcaskAccounting.IndexTotals` | bitcask/include/stats.h:15-27 | an index that represents a map has as many entries and bytes as the map needs |
| `BitcaskAccounting.IndexedAppend` | bitcask/src/partition.cpp:37-40 | appending a record disturbs nothing the index points to |
| `BitcaskPartition.Partition.Put` | bitcask/src/partition.cpp:22-60 | the record goes into a new active file exactly when the old one has reached the size limit; the store now means the map with this key set; index, replay, counters and hint files stay in agreement and sealed files are as they were |
| `BitcaskPartition.Partition.Get` | bitcask/src/partition.cpp:62-99 | answers what the map holds |
| `BitcaskPartition.Partition.Del` | bitcask/src/partition.cpp:101-135 | the store now means the map without the key; an absent key changes nothing, a present one appends a tombstone to the active file |
| `BitcaskPartition.Partition.RotateActiveFile` | bitcask/src/partition.cpp:156-178 | the active file is sealed with its hint file and a new one is above all; nothing a reader sees changes |
| `BitcaskPartition.Partition.SealActive` | bitcask/src/partition.cpp:181-212 | the hint file of the file being sealed loads as that file replayed alone |
| `BitcaskPartition.Partition.CreateAndSetActiveFile` | bitcask/src/partition.cpp:214-234 | the new id is above all in use |
| `BitcaskPartition.Partition.WriteTo` | bitcask/src/data_file.cpp:118-180 | the record goes to the end of the file, at the returned offset |
| `BitcaskPartition.UnderflowsIff` | bitcask/src/partition.cpp:42-55 | in every state of every run: overwriting or deleting a key takes a counter below zero if and only if the key is in a file whose counters are not written yet, the one a compaction is copying to |
| `BitcaskPartition.PreciseEvolves` | bitcask/src/partition.cpp:42-55 | an operation leaves counters without slack without slack |
| `BitcaskPartition.MeansWritten` | bitcask/src/partition.cpp:42-60 | everything the store means was put |
| `BitcaskPartition.CountPut` | bitcask/src/partition.cpp:42-55 | the counter updates of Put keep every file's total its size and its live counts the sums over the index plus the same slack |
| `BitcaskPartition.CountGrow` | bitcask/src/partition.cpp:126-127 | a tombstone counts as bytes that are not live |
| `BitcaskPartition.CountRelease` | bitcask/src/partition.cpp:114-116 | releasing a key takes nothing below zero and keeps the sums |
| `BitcaskPartition.PutGood` | bitcask/src/partition.cpp:22-60 | every aspect of a good state survives a put |
| `BitcaskPartition.DelGood` | bitcask/src/partition.cpp:101-135 | every aspect of a good state survives a delete |
| `BitcaskPartition.OpenedGood` | bitcask/src/partition.cpp:214-234 | a recovered state with a new active file is good in every aspect |
| `BitcaskPartition.ReadLocated` | bitcask/src/partition.cpp:82-98 | the second half of Get answers with the record that lies at the offset, if it is this key's |
| `BitcaskPartition.ReplayAppend` | bitcask/src/partition.cpp:404-409 | appending to the newest file replays as one more record |
| `BitcaskPartition.StoredRead` | bitcask/src/partition.cpp:148-154 | reading a location gives back its record |
| `BitcaskReopen.Reopen` | bitcask/src/partition.cpp:521-574 | closed or crashed and opened again: the index is what recovery makes of the sorted files, the counters are exact, the new active id is above every file whatever the clock says; refused only when the ids of a second have run out |
| `BitcaskReopen.ReopenedMeans` | bitcask/src/partition.cpp:521-555 | as long as no compaction has run every key keeps its value through a reopening, and the index is the same if and only if no tombstone is hidden behind a hint file |
| `BitcaskReopen.ReopenedExact` | bitcask/src/partition.cpp:521-555 | for any directory, compacted or not, exactly when the index comes back, and that the store then means the same |
| `BitcaskReopen.PreciseReopened` | bitcask/src/partition.cpp:525-563 | a reopening leaves no slack in any counter |
| `BitcaskReopen.RecoveredIndex` | bitcask/src/partition.cpp:521-555 | scanning the sorted files rebuilds exactly the live index (file, offset, size, timestamp); with hint files, if and only if no tombstone is hidden behind one |
| `BitcaskReopen.RecoveredMeans` | bitcask/src/partition.cpp:395-409 | every recovered location, of resurrected keys too, holds a record of its key |
| `BitcaskReopen.RestoreGenerator` | bitcask/src/partition.cpp:565-570 | the generator goes on above every file found |
| `BitcaskReopen.Close` | bitcask/src/partition.cpp:624-666 | the hint files found after a clean close |
| `BitcaskReopen.RecoverFiles` | bitcask/src/partition.cpp:536-555 | the loop over the files, hint first |
| `BitcaskReopen.RecoverStats` | bitcask/src/partition.cpp:525-563 | recovery leaves every file's counters exact, resurrected keys included |
| `BitcaskCompaction.Compact` | bitcask/src/partition.cpp:700-788 | with any client operations at every suspension, compaction of any sealed files changes nothing a reader sees beyond what the clients did; every source is gone from files, log and counters and no key points into one; a key that still points into an old sealed file did so before; the counters of every other file are as exact as before, those of the new file are exact if and only if no copied record had lost its key when they were written; with no clients every key is where it was or in the new file |
| `BitcaskCompaction.CompactFiles` | bitcask/src/compactor.cpp:190-242 | on success no index entry points into any source |
| `BitcaskCompaction.CompactSingleFile` | bitcask/src/compactor.cpp:124-186 | after a source is done nothing points into it, however it was read |
| `BitcaskCompaction.ProcessBufferEntries` | bitcask/src/compactor.cpp:30-119 | all complete records of the buffer are dealt with, in order |
| `BitcaskCompaction.ProcessEntry` | bitcask/src/compactor.cpp:58-116 | one record: copied if live, skipped if not |
| `BitcaskCompaction.CopyLive` | bitcask/src/compactor.cpp:70-108 | copy, suspend, re-check: a newer location is never overwritten |
| `BitcaskCompaction.MoveKeeps` | bitcask/src/compactor.cpp:92-103 | a key repointed at the copy reads back the same value |
| `BitcaskCompaction.AdvanceKeeps` | bitcask/src/compactor.cpp:60-68 | once nothing points at a record the file is cleared up to its end |
| `BitcaskCompaction.TotalledCounts` | bitcask/src/compactor.cpp:227-232 | the counters written for the new file count every copy as live: live equals total, at least the sum over the index, and equal to it if and only if every copy is still live |
| `BitcaskCompaction.PreciseCompacted` | bitcask/src/partition.cpp:700-788 | a compaction with no client in between leaves counters without slack without slack |
| `BitcaskCompaction.UnderflowsWhileCopying` | bitcask/src/partition.cpp:114-116 | while records are being copied, overwriting or deleting a key takes a counter below zero if and only if the key is in the new file |
| `BitcaskCompaction.NoUnderflowWhileRemoving` | bitcask/src/partition.cpp:749-779 | while sources are being unlinked, nothing does |
| `BitcaskWitnesses.DeletedWhileCopying` | bitcask/src/compactor.cpp:80-103 | one put, sealed and compacted, deleted between copy and re-check: the new file has no live byte and counts the whole record as live |
| `BitcaskWitnesses.DeletedAfterMove` | bitcask/src/partition.cpp:114-116 | the same, deleted after the key was repointed and before the new file has counters: they are below zero |
| `BitcaskWitnesses.PutAndSealed` | bitcask/src/partition.cpp:22-60 | the good state of one put, sealed away, that the witnesses start from |
| `BitcaskCompaction.Unlink` | bitcask/src/partition.cpp:749-779 | removing a source loses nothing |
| `BitcaskCompaction.FinishSource` | bitcask/src/compactor.cpp:146-185 | at the end of a file no index entry points into it |
| `BitcaskCompaction.MoveCounts` | bitcask/src/compactor.cpp:92-103 | repointing a key touches no counter: the source counts that record as live from then on |
| `BitcaskCompaction.QuietMove` | bitcask/src/compactor.cpp:86-103 | with no client in between every copy is live |
| `BitcaskCompaction.RefusalExcused` | bitcask/src/partition.cpp:22-30 | a well-sized operation is refused only if ids have run out within a second or 2^32 - 1 units of work were done |
| `BitcaskCompaction.Suspend` | bitcask/src/compactor.cpp:80-80 | the clients' operations run in order, each recorded as done or refused, and no sealed file notices |
| `BitcaskReads.GetAcrossSuspension` | bitcask/src/partition.cpp:79-83 | Get, which takes offset and size after a suspension, answers the map if the key is still in the file it opened |
| `BitcaskReads.GetAcrossMove` | bitcask/src/partition.cpp:79-98 | whatever bytes the opened file has and whatever lies at the new offset, it answers the map exactly when the bytes there are the encoding of a record of that key and value |
| `BitcaskReads.GetOntoRecord` | bitcask/src/partition.cpp:79-98 | if a record of the opened file, of any size, starts at the new offset, that record decides |
| `BitcaskReads.FormatReadsFit` | bitcask/src/entry.cpp:41-76 | what the format reads from fewer than 2^32 bytes fits it, which is what the two lemmas above ask of a format |
| `BitcaskReads.ReadExact` | bitcask/src/partition.cpp:82-98 | what the second half of Get answers on any bytes at all |
| `BitcaskWitnesses.GetMissesLiveKey` | bitcask/src/partition.cpp:79-91 | two keys of any sizes in a sealed file, the second copied to the front of the new file and repointed: a Get that had opened the old file misses it |
| `BitcaskStore.Run` | bitcask/src/partition.cpp:22-135 | for every run of puts, deletes, reads, rotations, inspections, compactions with clients inside and restarts: each step has its event, each operation asked for was tried in order, done operations are applied and well-sized ones refused only when ids run out, every read answers what a plain map would, every file's counters are its size and the sums over the index unless clients ran inside a compaction since the last restart (and then no less than the sums), a restart shows nothing that was not put, and before any compaction keeps every key and, without deletes, shows exactly the map |
| `BitcaskStore.Take` | bitcask/src/partition.cpp:62-99 | one step of a run agrees with the map, and a client operation is done exactly when it is allowed |
| `BitcaskStore.TakeCompaction` | bitcask/src/partition.cpp:700-788 | a compaction step tries every operation of its script, in order, during or after it |
| `BitcaskStore.TakeRestart` | bitcask/src/partition.cpp:521-574 | a restart shows what an onlooker may expect |
| `BitcaskStore.Conserved` | bitcask/include/stats.h:15-27 | exact counters add up, over all files in any order, to the number of keys of the plain map and the bytes its records need |
| `BitcaskStore.TakeInspect` | bitcask/include/stats.h:15-27 | index, file sizes and counters as they must be |
| `BitcaskWitnesses.OldValueReturns` | bitcask/src/partition.cpp:536-555 | a put, a compaction, a put of the same key, and a restart that undoes it, whatever hint files there are |
| `Completion.NoLostWake` | src/kio/core.cpp:172-240 | ext_wake_pending_ holds exactly when ext_done_ has work, and then a wake is due, unread, or the loop is committed to draining |
| `Completion.ExactlyOnce` | src/kio/core.cpp:356-457 | the pending list holds exactly the operations in flight, each once, and no coroutine is resumed twice |
| `Completion.NothingLost` | include/kio/core/blocking_pool.hpp:158-198 | when everything is at rest every started operation was resumed once or refused |
| `Completion.EachIsResumed` | src/kio/core.cpp:356-413 | from every reachable state, once nothing new starts, every schedule ends within a bound given by the state, and where it can go no further every operation started was resumed exactly once or refused |
| `Completion.Progress` | src/kio/core.cpp:172-240 | every step of loop, pool or kernel lowers the bound |
| `Completion.StuckAtRest` | src/kio/core.cpp:356-386 | there is no deadlock: where no step is left nothing is in flight |
| `Completion.NeverStuck` | src/kio/core.cpp:356-386 | the loop cannot sleep on finished work |
| `Completion.RunKeepsInv` | src/kio/core.cpp:172-240 | every interleaving of pool threads, kernel and loop keeps the invariant |
| `PendingList.PendingOps.NewOperation` | include/kio/core/core.hpp:365-382 | a new operation is known and not pending |
| `PendingList.PendingOps.Track` | src/kio/core.cpp:83-94 | pointer surgery: the operation goes to the front |
| `PendingList.PendingOps.Untrack` | src/kio/core.cpp:103-121 | exactly that operation leaves, if it was there, and all others stay linked in order |
| `PendingList.PendingOps.TrackedIff` | src/kio/core.cpp:83-121 | of all operations there are, exactly those in the list have the tracked flag |
| `BlockingPool.JobQueue.TrySubmit` | include/kio/core/blocking_pool.hpp:66-84 | refused exactly when stopping or full; otherwise appended |
| `BlockingPool.JobQueue.Take` | include/kio/core/blocking_pool.hpp:106-112 | the oldest job leaves |
| `BlockingPool.WindowPush` | include/kio/core/blocking_pool.hpp:79-81 | writing at the tail appends to the circular window |
| `BlockingPool.WindowPop` | include/kio/core/blocking_pool.hpp:110-112 | advancing the head drops the first of the circular window |
| `Baton.WokenExactlyOnce` | utilities/baton.hpp:52-71 | each successful push is answered by exactly one wake; a waiter not yet woken hangs on the word or on exactly one walking post |
| `Baton.ResetDropsNobody` | utilities/baton.hpp:92-96 | reset unsets a set baton and changes nothing else; it changes the word only when nobody hangs on it |
| `Baton.DecidedOnce` | utilities/baton.hpp:76-81 | a status leaves Waiting at most once, whenever the timer fires, so post and timeout never both win |
| `Baton.PostLeavesNobodyWaiting` | utilities/baton.hpp:73-90 | when a post that found the baton unset finishes, no timed waiter registered by then is still waiting, nor ever will be |
| `Baton.PostAlone` | utilities/baton.hpp:53-90 | a post called in any reachable state with nobody mid-call runs to its end and leaves the baton set; if it was not, every plain waiter has been woken, every timed waiter still waiting posted and its handle, if stored, scheduled |
| `Baton.SignaledByLast` | utilities/baton.hpp:47-96 | after every run the baton is set exactly when the last exchange or reset was an exchange |
| `Baton.PushEnds` | utilities/baton.hpp:193-205 | a waiter is told not to suspend only by a step that finds the baton set, and then was not pushed; otherwise it is on top of the stack |
| `Baton.WaitAlone` | utilities/baton.hpp:193-205 | a waiter that comes when the baton is set does not suspend; one that comes alone before is queued first, linked to those before it |
| `Baton.RegisterEnds` | utilities/baton.hpp:130-141 | a timed waiter either finds the baton set under the mutex, and then is not listed, or is listed last |
| `Baton.ContinuesTwiceIff` | utilities/baton.hpp:152-188 | a settled timed wait is never lost, and goes on twice if and only if, at the step at which the post or the timer that decided it reads the handle, the handle is stored and the coroutine has not gone to sleep; otherwise once |
| `Baton.CanContinueTwice` | utilities/baton.hpp:76-82 | a concrete run in which one post makes a timed waiter go on twice |
| `Baton.TimerCanContinueTwice` | utilities/baton.hpp:152-181 | a concrete run in which the timer alone makes it go on twice |
| `Baton.RunKeepsStack` | utilities/baton.hpp:194-205 | every interleaving keeps the stack invariant |
| `Baton.RunKeepsTimed` | utilities/baton.hpp:130-174 | every interleaving keeps the timed-waiter invariant |

## Left out

- Memory orders weaker than sequential consistency, in all concurrent models.
- The queue's implicit producers, enqueue_bulk, exceptions, moves and swaps.
- FreeList.EveryRunSafe: assumes fewer than 2^31 - 1 threads, the room in the reference counter.
- OptimisticDequeue.ClaimedOnceAfterEnqueue: for runs without a misled decision, because the claim is false beyond (`HeadCanPassTail`).
- BlockIndex.EveryLookupRight: a claim is any step with head + k <= tail (QueueDelivery joins it with the counters); an index of more than 2^57 slots cannot be allocated.
- QueueDelivery.DeliveredOnce: for runs without a misled decision, because the claim is false beyond (`HeadCanPassTail`).
- The arithmetic of the hash rounds, avalanches and short inputs: parameters of the models; SIMD variants and alignment.
- Xxh3.StreamEqualsOneShot: inputs shorter than 2^64 bytes, the counter's width; 64-bit results only, not the 128-bit variant.
- std::bit_ceil beyond 2^63 and allocation failure in IoBuffer.
- RESP doubles: which texts are valid is a parameter of the configuration.
- BitcaskEntry.DeserializeEncoded: records of 4 GiB or more, whose size the code truncates to 32 bits.
- BitcaskLog.RecoverFromDataFile: does not follow what a scan does after it has met a record of 4 GiB or more.
- BitcaskPartition.Partition.Put: what happens after an id was reused because the sequence is exhausted (the generator states exactly when that is), and files of 2^64 bytes or more.
- BitcaskPartition.Partition.RotateActiveFile: the same exhausted sequence.
- BitcaskPartition.Partition.CreateAndSetActiveFile: the same exhausted sequence.
- BitcaskEntry.PeekAgrees: the compactor's 32-bit record size, which wraps for records of 4 GiB or more.
- BitcaskCompaction.Compact: failed compactions, failed writes, and clients that are themselves suspended while the compactor moves; a client operation takes effect at one suspension point. A compaction that is declined because another one runs is not modelled.
- BitcaskReads.GetAcrossSuspension: a key deleted, or erased by a rehash of the index, while a Get holds its reference.
- BitcaskStore.Run: reads during a compaction (see BitcaskReads) and, after a compaction, that a restart keeps the map, because the source then gives no such guarantee (`ReopenedExact` has the condition).
- BitcaskReopen.Close: an empty active file, which the code removes on a clean close, is kept; it holds nothing.
- BitcaskReopen.Reopen: directories of whole records; what the scan makes of torn records and preallocated space is in `BitcaskLog.RecoverDamaged`. Records lost because they were never synced.
- Choosing files to compact by their fragmentation ratio: any set of sealed files is compacted.
- The descriptor cache and periodic sync.
- Completion.NothingLost: shutdown (draining without resuming, stopping the pool), full rings and failing eventfd writes.
- Baton.WokenExactlyOnce: the lifetime of the baton itself, and what a resumed coroutine does.
- TLS, sockets, files, signals, HTTP, logging, benchmarks and demo programs.
