# EmberDB in Dafny

EmberDB is a Redis-compatible server. This project models its hardest logic and proves what
that logic is for. Nothing here runs the server; everything below is a statement about the
model, which follows the code branch by branch.

- `DoubleBuffer`: the two-goroutine reply writer as a state machine over all interleavings.
- `Bytes`, `Numbers`, `InlineArgs`, `InlineQuoting`, `Multibulk`, `RespServer`: the RESP reader
  and writer with its reused scratch buffers, the inline tokenizer against its reference and
  against a writer of quoted words, and the hand-written integer parsers. The format is that
  of the sections "Arrays", "Bulk strings" and "Inline commands" of the Redis serialization
  protocol specification.
- `Slots`, `SortedSets`, `TextOrder`, `StoreModel`, `StoreRuns`, `KeyLocality`, `StoreLaws`,
  `StoreReplies`, `KVStore`, `StoreService`: the store in its two layouts, against one map of
  tagged values. Hash tags follow the section "Hash tags" of the Redis Cluster specification.
- `MultiKey`: concurrent MSET, MGET and single-key calls under the shard locks or the one lock
  of the store.
- `Bitmap`, `ClusterState`, `SetSlotForms`, `SlotRanges`: slot bitmaps, a node's view of the
  cluster, the forms of SETSLOT, and the range form of the slot table.
- `Rebalance`, `MoveSlots`, `MoveMarks`: the planner, the coordinator that may stop at any
  command, and what the servers then serve, mark and route.
- `BusCodec`, `BusStream`: the binary bus messages, and the loop that cuts a stream into them.
- `PubSub`, `PubSubHub`, `PubSubRuns`: channel lifetimes in the subscription registry.
- `SlotAllocation`: the ranges a new cluster starts with.

Objects the code updates in place are classes whose methods are proved against functions of
their old contents; loops are loops. Protocols between goroutines or machines are state
machines whose steps are the points where another party can run. Library calls become
parameters: the order a sort leaves or a map is visited in, random draws, names drawn at
random, and whether a reply arrives.

Where the code and its description differ, the model follows the code:

- `ParseInt32` checks for overflow only from the eleventh byte on, so some numbers of ten or
  eleven digits wrap: `Numbers.ParseInt32ExactIff` says which, `Numbers.ParseInt32Wraps` and
  `Numbers.ParseInt32WrapsLate` show one of each.
- The planner moves the larger of a pair's two balances, which after sorting is the source's,
  so one round need not leave all nodes even; `Rebalance.EvenIffMirrored` says when it does,
  `Rebalance.ThreeNodesStayUneven` shows when it does not.
- LPUSH puts its values in front of the list in the order given, where Redis reverses them:
  `StoreLaws.LPushIsRedisIff`, `StoreLaws.LPushDiffers`.
- The two bytes after a bulk string's body are read and never compared with a line ending:
  `Multibulk.EndingsAreIgnored`, `Multibulk.BulkBytesIff`, `Multibulk.AnyEndingIsAccepted`.
- The loop that reads the cluster bus does not look at the decoder's error and goes on with a
  nil message: `BusStream.EndsOrderlyIff`, `BusStream.BareHeaderFails`.
- INCR, INCRBY and DECR wrap around at 64 bits: `StoreLaws.ChangeIsExactIff`,
  `StoreLaws.IncrWraps`. DECRBY negates its amount first, and docs/redis-benchmarks.md notes
  that this wraps for the smallest integer: `StoreLaws.DecrByIsExactIff`, `StoreLaws.DecrByWraps`.

## Model
| member | source | states |
|---|---|---|
| DoubleBuffer.BytesAreNeverLostOrReordered | utils/go-resp/doublebuffer/doublebuffer.go:72-178 | In every interleaving of writer and flusher the accepted bytes are the sink, the unwritten rest of the front buffer and the back buffer, in that order, also after a partial failing sink write; the back buffer keeps its limit; accepted is a prefix of asked, also after refused calls; the byte counts Write returns add up |
| DoubleBuffer.StepKeepsInv | utils/go-resp/doublebuffer/doublebuffer.go:72-178 | Every step of either goroutine keeps the whole invariant: order of bytes, mutual exclusion, no call gets past its first check after a refusal, no lost data token, no lost space token, life cycle |
| DoubleBuffer.NoPanic | utils/go-resp/doublebuffer/doublebuffer.go:114-128 | No run sends on the closed channel, closes it twice, or has both goroutines inside the mutex |
| DoubleBuffer.CloseDrains | utils/go-resp/doublebuffer/doublebuffer.go:84-128 | When the flusher has left its loop and no sink write failed, the sink holds every accepted byte, and every byte ever passed to Write while Close waits |
| DoubleBuffer.CloseReturnsDrained | utils/go-resp/doublebuffer/doublebuffer.go:114-128 | Whatever the flusher was doing when Close was called, a Close that returns leaves the context done and, unless a sink write failed, the flusher ended and the sink holding every accepted byte, and every byte ever passed to Write if none was refused |
| DoubleBuffer.CloseFinishesDrained | utils/go-resp/doublebuffer/doublebuffer.go:84-128 | Under every scheduler a Close that has begun returns within a number of steps fixed when it begins, and drained |
| DoubleBuffer.FlusherComesToRest | utils/go-resp/doublebuffer/doublebuffer.go:84-112 | Left alone, the flusher comes to rest within a number of steps fixed at the start |
| DoubleBuffer.RestMeansFlushed | utils/go-resp/doublebuffer/doublebuffer.go:84-178 | Where the flusher rests between calls and the sink works, every byte ever passed to Write is in the sink, without a Close |
| DoubleBuffer.ChunksAreWhole | utils/go-resp/doublebuffer/doublebuffer.go:130-178 | A Write of at most the limit enters the buffer in one piece, a longer one in pieces of exactly the limit |
| DoubleBuffer.NoDeadlock | utils/go-resp/doublebuffer/doublebuffer.go:84-178 | Whenever the writer is inside Write or Close, one of the two goroutines can move |
| DoubleBuffer.StepDecreasesRank | utils/go-resp/doublebuffer/doublebuffer.go:84-178 | Every step inside a call, by either goroutine and with any sink outcome, lowers a measure that also counts stale tokens |
| DoubleBuffer.CallsFinish | utils/go-resp/doublebuffer/doublebuffer.go:130-178 | Under every scheduler a Write or Close that has begun returns within a number of steps fixed when it begins, with any stale bufferReadyFlag token |
| DoubleBuffer.ZeroLimitAcceptsNothing | utils/go-resp/doublebuffer/doublebuffer.go:130-178 | With a limit of zero no byte is ever accepted: the progress result needs a positive limit |
| Numbers.ParseInt64 | utils/go-resp/helpers.go:46-102 | Succeeds exactly on "0", a digit string without leading zero, or a minus sign and digits, of at most 20 bytes and a value within 64 bits, and returns that value |
| Numbers.ParseUInt32 | utils/go-resp/helpers.go:104-124 | Succeeds exactly on one to ten digits whose value fits 32 bits, and returns it |
| Numbers.ParseInt32 | utils/go-resp/helpers.go:126-181 | Computes the accumulator the code computes, wrap-around included, and refuses what the code refuses |
| Numbers.ParseInt32ExactIff | utils/go-resp/helpers.go:126-181 | The result is the number written exactly when the text is not a positive number of ten or eleven digits whose first ten digits exceed 32 bits while the wrapped result is in range |
| Numbers.ParseInt32ExactUpToMaxUint32 | utils/go-resp/helpers.go:126-181 | Exact for negative numbers and for every value up to the largest unsigned 32-bit one |
| Numbers.ParseInt32Wraps | utils/go-resp/helpers.go:152-181 | The text 4294967297 is read as 1 |
| Numbers.ParseInt32WrapsLate | utils/go-resp/helpers.go:152-181 | The eleven-digit text 42949672965 is read as 5 |
| Numbers.AtoiItoa | utils/kvstore/kvstore.go:112-121 | Reading a written 64-bit integer gives it back |
| Numbers.ItoaIs | utils/kvstore/kvstore.go:112-121 | A text is the written form of an integer exactly when it is a minus sign for a negative one and then digits of its absolute value without leading zero |
| InlineArgs.Sdssplitargs | utils/go-resp/readargs_test.go:125-244 | The reference tokenizer's nested loops compute the specification of splitting a line |
| InlineArgs.ReadAgreesWithSplit | utils/go-resp/server.go:200-371 | On a line without newline bytes, its newline and any further input, readArgs returns the reference tokenizer's arguments and consumes exactly the line when they are within the limits, and fails otherwise, unless the line ends in a backslash inside double quotes and input follows |
| InlineArgs.UnbalancedIsReported | utils/go-resp/server.go:238-351 | Where the reference tokenizer has no answer and the limits leave room, the reader's error is that of unbalanced quotes |
| InlineQuoting.QuotingRoundTrip | utils/go-resp/server.go:200-371 | Any arguments, each written bare, in single or in double quotes with the escapes given byte by byte, and set apart by any separators, are read back unchanged and exactly the line is consumed, wherever it stands and whatever follows; over a limit the error is that of the first argument beyond it |
| InlineArgs.AgreesForEveryTailIff | utils/go-resp/server.go:245-289 | The two tokenizers agree on a line whatever follows it exactly when the line does not end in a backslash inside double quotes |
| InlineArgs.DanglingEscapeTellsApart | utils/go-resp/server.go:245-289 | Such a line, a double quote and a backslash: followed by a quote and a newline, the reader returns the first newline as an argument and the reference tokenizer fails |
| InlineArgs.NewlineEscaped | utils/go-resp/server.go:249-289 | In double quotes a backslash directly before the newline takes the newline into the argument, and the reference tokenizer fails there |
| Multibulk.ArrayRoundTrip | utils/go-resp/server.go:373-441 | Wherever a written command stands in the input it is read back unchanged and exactly its bytes are consumed, precisely when it is within the limits and its counts within 32 bits; beyond the limits the error is that of the first count or argument over one, and a count beyond 32 bits is an error or, where it wraps, a command of another length |
| Multibulk.GetOnTheWire | utils/go-resp/server.go:373-441 | The bytes of GET of the key "k", written out |
| Multibulk.PipelineRoundTrip | utils/go-resp/server.go:109-121 | Commands written one after the other come back in order through repeated Next calls, consuming exactly their bytes, precisely when every one of them can be read |
| Multibulk.BulksRead | utils/go-resp/server.go:411-436 | The bulk loop reads back the arguments from any point on exactly when the rest fits |
| Multibulk.LineRead | utils/go-resp/server.go:175-185 | A line is returned without its line ending exactly when the reader's buffer holds it |
| Multibulk.EndingsAreIgnored | utils/go-resp/server.go:428-435 | Two inputs that differ only in the two bytes after each body hold the same command, or the same error, for the reader |
| Multibulk.BulkBytesIff | utils/go-resp/server.go:413-435 | The bytes read for a bulk string are those a writer produces for its body exactly when the header is canonical and the two bytes are CR and LF |
| Multibulk.CommandBytesIff | utils/go-resp/server.go:373-441 | The bytes read for a whole array are those a writer produces exactly when every header is canonical and every ending CR LF |
| Multibulk.AnyEndingIsAccepted | utils/go-resp/server.go:428-435 | The eleven bytes of an array whose one body is followed by XY are accepted as the command "a" |
| RespServer.CollectFragmentsSize | utils/go-resp/server.go:123-161 | Put together from buffer-sized fragments: the line through its newline when it is short enough, else end of input or buffer full, each exactly when it applies |
| RespServer.ReadLine | utils/go-resp/server.go:175-185 | The line without its newline and one carriage return before it |
| RespServer.Classify | utils/go-resp/server.go:238-351 | The branches on the byte read, the quote flags and the bytes peeked at, as the specification orders them |
| RespServer.ScanArgument | utils/go-resp/server.go:238-351 | One argument is read into the buffer byte by byte, with the specification's result or error |
| RespServer.ReadInline | utils/go-resp/server.go:200-371 | The arguments of an inline command lie back to back in the buffer where the bounds say |
| RespServer.ReadOneBulk | utils/go-resp/server.go:413-434 | One bulk string: header, length limits, body and two unchecked bytes, with the error each failure has |
| RespServer.ReadMultibulk | utils/go-resp/server.go:402-440 | Whatever the reused buffers held, and although every body is read over the previous one's two trailing bytes, all arguments are in place at the end |
| RespServer.StoreBulk | utils/go-resp/server.go:428-435 | Reading a body at the write position leaves all earlier arguments untouched |
| RespServer.Server.FillRefs | utils/go-resp/server.go:437-440 | The argument slices are exactly the arguments, followed by the stale references that were there |
| RespServer.Server.ReadArgs | utils/go-resp/server.go:200-371 | Returns what the specification of readArgs returns and consumes what it consumes, for any scratch contents |
| RespServer.Server.ReadCommand | utils/go-resp/server.go:373-441 | Returns what the specification of next returns and consumes what it consumes, for any scratch contents |
| RespServer.Server.Next | utils/go-resp/server.go:109-121 | Skips empty commands; the first error is kept and returned again by every later call without reading |
| RespServer.SanitizeSimpleString | utils/go-resp/helpers.go:12-19 | In the caller's own slice every line break becomes a space and nothing else changes |
| RespServer.FillReply | utils/go-resp/server.go:473-497 | The reused reply buffer holds type byte, sanitized head, line ending and optional body, whatever it held before |
| RespServer.FrameIs | utils/go-resp/server.go:473-497 | A status line with a line break in it and a bulk reply, byte for byte |
| RespServer.Server.Write | utils/go-resp/server.go:457-469 | Before the first error everything is accepted; the failing write leaves a beginning of its bytes behind, and every later call returns the error and sends nothing |
| RespServer.SendTwice | utils/go-resp/server.go:457-469 | Writes in a row, none after a failure, are one write of all the bytes, wherever the connection fails |
| RespServer.Server.WriteWithType | utils/go-resp/server.go:473-497 | Sends exactly that frame, or its beginning up to the failure, and sanitizes the caller's head in place |
| RespServer.Server.WriteBytes | utils/go-resp/server.go:547-552 | Sends one bulk string, or its beginning up to the failure; nil is written as an empty one |
| RespServer.Server.WriteArrayBytes | utils/go-resp/server.go:664-687 | Sends exactly the encoding that ArrayRoundTrip reads back; with the early returns, a connection that fails in between has received exactly a beginning of it |
| RespServer.ClusterCommand | utils/clusters/cluster.go:42-55 | The coordinator's own encoder produces the same encoding |
| SortedSets.SortIsStable | utils/kvstore/sortedsets.go:29 | Sorting puts scores in ascending order and keeps every tie in the order it had |
| SortedSets.SortIsUnique | utils/kvstore/sortedsets.go:29 | Ascending order and tie order determine the result, so any stable sort returns the same sequence |
| SortedSets.ZaddMeaning | utils/kvstore/sortedsets.go:11-31 | ZADD keeps the set duplicate-free and ascending, its contents are those of a last-write-wins map, and ties keep their order from before the sort |
| SortedSets.Zadd | utils/kvstore/sortedsets.go:11-31 | The update-or-append loops compute that result, and the count is the growth in size |
| SortedSets.ZremMeaning | utils/kvstore/sortedsets.go:93-105 | ZREM removes exactly the named members and keeps the others with score and order; the ties of every score are the old ones without the removed |
| SortedSets.Zrem | utils/kvstore/sortedsets.go:93-105 | The two loops compute that result, and the count is the loss in size |
| SortedSets.RangeBounds | utils/kvstore/lists.go:130-147 | The interval returned runs from the first to the last normalised rank and holds exactly the ranks between them, and ok says whether there is one |
| SortedSets.Lrange | utils/kvstore/lists.go:148-167 | As many elements as there are ranks in the interval; position by position the one at the first rank and those after it |
| SortedSets.Zrange | utils/kvstore/sortedsets.go:67-90 | As many names as there are ranks in the interval; position by position the member at the first rank and those after it |
| SortedSets.RankedAt | utils/kvstore/lists.go:130-167 | A rank interval, position by position |
| SortedSets.ZrangeAt | utils/kvstore/sortedsets.go:67-90 | The reply of ZRANGE, position by position |
| SortedSets.RunsStayOrdered | utils/kvstore/sortedsets.go:11-137 | Over every run of ZADD and ZREM the set stays duplicate-free and ascending with the contents and the size of the last-write-wins map |
| SortedSets.RunsKeepTieOrder | utils/kvstore/sortedsets.go:11-137 | After every run of ZADD and ZREM one member stands before another exactly when its score is lower or, for equal scores, when their history says so: old members keep their order, new ones follow in the order of first mention; history and scores are told from the maps and the commands alone |
| SortedSets.RangeAfterRuns | utils/kvstore/sortedsets.go:11-137 | After every run of ZADD and ZREM, ZRANGE 0 -1 lists exactly the members of the last-write-wins map, each once, one before another exactly when its score is lower or, for equal scores, when their history says so |
| Slots.TagIsHashed | utils/kvstore/kvstore.go:69-77 | Where the specification of hash tags sees a tag, exactly the tag is hashed |
| Slots.UntaggedIsHashedWhole | utils/kvstore/kvstore.go:69-77 | A key without a tag, or with an empty one, is hashed whole |
| Slots.SameTagSameSlot | utils/kvstore/kvstore.go:69-77 | Keys with the same tag share a slot whatever surrounds it |
| Slots.SlotForKey | utils/kvstore/kvstore.go:69-77 | The slot is below 16384 |
| Slots.SlotsDiffer | utils/kvstore/kvstore.go:76 | The empty key is in slot 0 and "foo" in slot 12182 |
| StoreModel.ClashIsInvisible | utils/kvstore/lists.go:62-183 | An operation that creates nothing sees a value of another type as no value, and leaves it alone |
| StoreModel.ReadsKeepState | utils/kvstore/strings.go:44-65 | Reading operations change nothing in either layout |
| StoreModel.OneOnShards | utils/kvstore/shard.go:18-20 | One single-key operation on the shards is one on the map they stand for, and every key stays in the shard it hashes to |
| StoreModel.OneOnFlat | utils/kvstore/kvstore.go:39-52 | One well-typed single-key operation on the per-type maps is one on the map they stand for |
| StoreRuns.StepAgrees | utils/kvstore/strings.go:8-148 | Every orderly operation, on one key or several, has the reference's reply in both layouts and keeps them standing for the same map |
| StoreRuns.LayoutsAreIndistinguishable | utils/kvstore/kvstore.go:39-67 | Over every sequence of operations in which writes respect types and several keys share a slot, the sharded and the per-type store give identical replies |
| StoreRuns.LayoutsDifferIffTypesClash | utils/kvstore/strings.go:103-148 | After a write, some read on the key tells the two layouts apart exactly when the write was against another type |
| StoreRuns.ClashFromEmpty | utils/kvstore/strings.go:8-20 | LPUSH and SET on a new key: LLEN then replies 0 from the shards and 1 from the per-type maps |
| StoreRuns.ReachableLayoutsDiffer | utils/kvstore/strings.go:8-148 | After every orderly run on two new stores, some read tells a further write apart exactly when the write is against the type the key then has |
| StoreRuns.MsetNeedsOneSlot | utils/kvstore/strings.go:22-42 | Mset into the first key's shard is right for every store exactly when all keys share a slot |
| StoreRuns.RunsStayProper | utils/kvstore/hashes.go:113-146 | In either layout no run, orderly or not, stores an empty collection or an unordered sorted set in any shard or map |
| StoreRuns.ActKeepsProper | utils/kvstore/sortedsets.go:33-65 | One operation stores no empty collection exactly when it is not a ZADD without pairs on a missing key |
| KeyLocality.OthersLeaveIt | utils/kvstore/shard.go:18-20 | An operation that does not touch a key leaves it alone in every shard and every map, its own shard included |
| KeyLocality.OnlyTheKeyMatters | utils/kvstore/strings.go:8-148 | An operation does the same to a key and tells its client the same whatever else the store holds; of an MGET that is the key's part of the reply |
| KeyLocality.OnlyOwnOperationsMatter | utils/kvstore/kvstore.go:39-67 | In either layout, two runs in which the same operations touch a key tell its clients the same and leave the same behind, whatever else they do |
| KeyLocality.RunIsOneValue | utils/kvstore/kvstore.go:39-67 | To a client that uses a key for one kind of value, a whole run is its operations on a single value, so that the laws of one value hold in every run |
| StoreLaws.StringLaws | utils/kvstore/strings.go:8-120 | GET sees the last SET, APPEND adds to it, a missing key reads as (nil) |
| StoreLaws.ChangeUndone | utils/kvstore/strings.go:122-172 | Adding and then subtracting the same amount restores the number, even across the 64-bit wrap-around |
| StoreLaws.ChangeIsExactIff | utils/kvstore/strings.go:122-163 | A value that is no integer is refused and left alone; otherwise the decimal form of the sum is stored exactly when the sum has 64 bits |
| StoreLaws.IncrWraps | utils/kvstore/kvstore.go:112-121 | INCR of the largest integer stores the smallest |
| StoreLaws.DecrByIsExactIff | utils/kvstore/strings.go:166-172 | Although the negation of the smallest integer wraps, DECRBY stores the exact difference precisely when the difference has 64 bits |
| StoreLaws.DecrByWraps | utils/kvstore/strings.go:166-172 | DECRBY of the smallest integer on a missing key stores that integer |
| StoreLaws.PushPop | utils/kvstore/lists.go:9-128 | A push at either end is undone by the pop at that end, down to the key not existing |
| StoreLaws.PushOrder | utils/kvstore/lists.go:3-60 | Pushed values stand in the order given, in front of or behind the old ones, and the reply is the new length |
| StoreLaws.LPushIsRedisIff | utils/kvstore/lists.go:3-33 | One LPUSH leaves what Redis leaves, the values pushed one at a time, exactly when the values read the same backwards |
| StoreLaws.LPushDiffers | utils/kvstore/lists.go:3-33 | LPUSH of two different values on a new key leaves them in the order given, where Redis has them reversed |
| StoreLaws.HMSetLaw | utils/kvstore/hashes.go:11-62 | HMSET writes exactly its fields |
| StoreLaws.HDelLaw | utils/kvstore/hashes.go:113-146 | HDEL removes exactly its fields and counts those that were there |
| StoreLaws.SetLaws | utils/kvstore/sets.go:7-123 | SADD and SREM change exactly the membership of their arguments and reply with the change in size |
| StoreLaws.DeleteForgets | utils/kvstore/kvstore.go:79-109 | In every run of either layout, when the last two operations that touch a key are DEL and another, the other replies as on a key that does not exist |
| StoreLaws.GetSeesLastSet | utils/kvstore/strings.go:8-65 | In every run of either layout GET replies with the last SET of its key, whatever other keys, also of the same shard, did since |
| StoreLaws.PushPopInRuns | utils/kvstore/lists.go:9-128 | In every run of either layout the next pop of a list at the end of a push returns the pushed value and leaves the key as before the push |
| StoreReplies.HMGetLaw | utils/kvstore/hashes.go:64-85 | HMGET answers each field, at its own position, as HGET does |
| StoreReplies.WholeLaws | utils/kvstore/hashes.go:87-111 | HGETALL lists exactly the fields HGET finds, with their values, and SMEMBERS the members SISMEMBER knows |
| StoreReplies.MgetIsGets | utils/kvstore/strings.go:67-101 | In either layout MGET of keys of one slot answers each, at its own position, as GET does |
| StoreReplies.MsetIsSets | utils/kvstore/strings.go:22-42 | In either layout MSET of keys of one slot leaves what the SETs of its pairs in their order leave |
| StoreReplies.ZAddLaw | utils/kvstore/sortedsets.go:11-65 | ZADD leaves the last score given to each member, adds exactly its members, and replies with the number added |
| StoreReplies.ZRemLaw | utils/kvstore/sortedsets.go:93-137 | ZREM removes exactly its members and replies with the number removed |
| StoreReplies.MissingKey | utils/kvstore/strings.go:44-65 | An operation that does not create its key answers for a missing one as for an empty one, GET with (nil), and leaves it missing |
| StoreReplies.ClashRefused | utils/kvstore/strings.go:103-148 | A write to a key of another type, SET aside, changes nothing; strings and sorted sets report it, pushes and SADD reply 0 and HMSET says nothing |
| StoreReplies.DeleteCounts | utils/kvstore/kvstore.go:79-109 | In every run of either layout DEL replies 1 for a key just set and 0 for a key just deleted |
| KVStore.KVStore.constructor | utils/kvstore/kvstore.go:54-67 | A new store in either mode stands for the empty map |
| KVStore.KVStore.Set | utils/kvstore/strings.go:8-20 | The key holds the string: over whatever its shard held, or beside other types in the per-type maps; in both modes nothing else changes |
| KVStore.KVStore.Get | utils/kvstore/strings.go:44-65 | The string, or (nil) for a missing key and in a shard for another type; in both modes nothing else changes |
| KVStore.KVStore.Append | utils/kvstore/strings.go:103-120 | The old string followed by the suffix, a missing one counting as empty; another type in the shard is refused; in both modes nothing else changes |
| KVStore.KVStore.ChangeInteger | utils/kvstore/strings.go:122-148 | The decimal form of the sum, or a refusal that leaves the value alone; in both modes nothing else changes |
| KVStore.KVStore.Incr | utils/kvstore/strings.go:150-152 | One is added; in both modes nothing else changes |
| KVStore.KVStore.IncrBy | utils/kvstore/strings.go:154-160 | An amount that is no integer is refused without effect; otherwise the amount is added |
| KVStore.KVStore.Decr | utils/kvstore/strings.go:162-164 | One is subtracted; in both modes nothing else changes |
| KVStore.KVStore.DecrBy | utils/kvstore/strings.go:166-172 | The same with the amount negated in 64 bits |
| KVStore.KVStore.Delete | utils/kvstore/kvstore.go:79-109 | The key is gone from its shard or from all five maps, and 1 says that it was somewhere; in both modes nothing else changes |
| KVStore.KVStore.LPush | utils/kvstore/lists.go:9-33 | The values stand before the old list; the reply is the new length; in both modes nothing else changes |
| KVStore.KVStore.RPush | utils/kvstore/lists.go:35-60 | The values stand after the old list; the reply is the new length; in both modes nothing else changes |
| KVStore.KVStore.LPop | utils/kvstore/lists.go:62-93 | The first element is returned and removed, and with the last one the key; in both modes nothing else changes |
| KVStore.KVStore.RPop | utils/kvstore/lists.go:95-128 | The last element is returned and removed, and with the only one the key; in both modes nothing else changes |
| KVStore.KVStore.LRange | utils/kvstore/lists.go:148-167 | Exactly the elements at the normalised ranks; in both modes nothing else changes |
| KVStore.KVStore.LLen | utils/kvstore/lists.go:170-183 | The length, zero for a missing key; in both modes nothing else changes |
| KVStore.KVStore.HMSet | utils/kvstore/hashes.go:11-44 | The fields lie over the old ones; nothing happens for no fields or another type in the shard; in both modes nothing else changes |
| KVStore.KVStore.HGet | utils/kvstore/hashes.go:46-62 | The field, if it is there; in both modes nothing else changes |
| KVStore.KVStore.HMGet | utils/kvstore/hashes.go:64-85 | One answer per field, in order; in both modes nothing else changes |
| KVStore.KVStore.HGetAll | utils/kvstore/hashes.go:87-111 | All fields with their values as a flat list, the fields in ascending order; in both modes nothing else changes |
| KVStore.KVStore.HDel | utils/kvstore/hashes.go:113-146 | Exactly the named fields go, counted, and with the last one the key; in both modes nothing else changes |
| KVStore.KVStore.SAdd | utils/kvstore/sets.go:7-48 | Exactly the named members are added; the reply is the growth in size; in both modes nothing else changes |
| KVStore.KVStore.SMembers | utils/kvstore/sets.go:50-70 | All members in ascending order; in both modes nothing else changes |
| KVStore.KVStore.SIsMember | utils/kvstore/sets.go:72-88 | Whether it is a member; in both modes nothing else changes |
| KVStore.KVStore.SRem | utils/kvstore/sets.go:90-123 | Exactly the named members go, counted, and with the last one the key; in both modes nothing else changes |
| KVStore.KVStore.ZAdd | utils/kvstore/sortedsets.go:33-65 | An odd number of arguments and a bad score are told apart and change nothing; otherwise the sorted set after the update, and its growth; another type in the shard is refused; in both modes nothing else changes |
| KVStore.KVStore.ZRange | utils/kvstore/sortedsets.go:67-90 | The names at exactly the normalised ranks; in both modes nothing else changes |
| KVStore.KVStore.ZRem | utils/kvstore/sortedsets.go:107-137 | Exactly the named members go, counted, and with the last one the key; in both modes nothing else changes |
| KVStore.KVStore.Mset | utils/kvstore/strings.go:22-42 | All pairs in order, last write winning, into the first key's shard or the string map; nothing else changes |
| KVStore.KVStore.Mget | utils/kvstore/strings.go:67-100 | Every key looked up in the first key's shard or the string map |
| KVStore.KVStore.FlushAll | utils/kvstore/kvstore.go:124-142 | Everything is gone in both modes |
| KVStore.KVStore.GetKeysInSlot | utils/kvstore/kvstore.go:144-160 | Different keys of the shard, as many as asked for or all there are; none for a bad slot or count |
| KVStore.MergeFields | utils/kvstore/hashes.go:28-43 | Whatever order the fields are visited in, the new ones lie over the old |
| KVStore.LookupFields | utils/kvstore/hashes.go:78-84 | One answer per field asked for, in order |
| KVStore.RemoveFields | utils/kvstore/hashes.go:114-123 | Exactly the named fields go, counted once each |
| KVStore.AddMembers | utils/kvstore/sets.go:8-17 | Exactly the named members are added, counted once each |
| KVStore.RemoveMembers | utils/kvstore/sets.go:91-100 | Exactly the named members go, counted once each |
| TextOrder.ListMembers | utils/kvstore/sets.go:64-69 | Whatever order the members are visited in, the reply lists each once in ascending order |
| TextOrder.LessIs | utils/kvstore/sets.go:68 | One text is before another exactly when it is a proper prefix or has the smaller byte where they first differ |
| TextOrder.AscendingIsUnique | utils/kvstore/sets.go:68 | That list is determined by the set |
| TextOrder.ListFields | utils/kvstore/hashes.go:101-110 | The fields in ascending order, each followed by its value |
| TextOrder.FieldListIsUnique | utils/kvstore/hashes.go:101-110 | That list is determined by the hash |
| StoreService.ExecuteOne | cmd/ember-server/main.go:71-139 | Each command reaches its store method with the model's effect and reply |
| StoreService.Serve | cmd/ember-server/main.go:63-139 | A sequence of commands runs as the model says, reply for reply |
| StoreService.AnswerAlike | utils/kvstore/kvstore.go:54-67 | Two new stores, one in each mode, give the replies of a single map to every orderly sequence |
| StoreService.HandleMSet | cmd/ember-server/commands_strings.go:150-198 | Wrong arity, keys in different slots, an unserved slot and a moved one are told apart exactly and leave the store alone; otherwise exactly one Mset happens |
| StoreService.HandleMGet | cmd/ember-server/commands_strings.go:200-240 | The same checks in front of one Mget |
| MultiKey.MgetIsAtomic | utils/kvstore/strings.go:22-100 | In both modes, in every interleaving of any number of clients, every MGET returns what its keys held after some number of complete writers, MSETs and operations on single keys alike, at a moment between its call and its return |
| MultiKey.StepKeepsInv | utils/kvstore/strings.go:22-100 | Every step under the shard locks, or under the one lock of a store without cluster, keeps writers exclusive and readers on one state |
| MultiKey.RestingStoreIsReplay | utils/kvstore/strings.go:8-148 | When nobody is writing, the store is exactly what the complete writers make of it |
| MultiKey.LastWriteWins | utils/kvstore/strings.go:30-33 | Inside an MSET the last value for a key stays |
| MultiKey.MsetWrites | utils/kvstore/strings.go:22-42 | An MSET gone through key by key writes what the store's Mset writes |
| MultiKey.NoDeadlock | utils/kvstore/strings.go:22-100 | While any call is in progress some call can move on |
| Bitmap.CountSlots | utils/clusters/cluster.go:32-40 | The sum over the words is the number of slots in the bitmap |
| Bitmap.HasIs | utils/clusters/node.go:95-115 | Slot s is the bit of value 2 to the s mod 64 in word s / 64 |
| Bitmap.OwnedAfterAdd | utils/clusters/node.go:95-100 | Setting the bit adds exactly that slot |
| Bitmap.OwnedAfterRemove | utils/clusters/node.go:110-115 | Clearing the bit removes exactly that slot |
| ClusterState.ClusterNode.constructor | utils/clusters/node.go:51-66 | A new node serves nothing and its count says so |
| ClusterState.ClusterNode.SetOwnedSlots | utils/clusters/node.go:88-93 | The bitmap is replaced and the count recomputed |
| ClusterState.ClusterNode.AddSlot | utils/clusters/node.go:95-100 | One slot more, with the right count |
| ClusterState.ClusterNode.AddSlotRange | utils/clusters/node.go:102-109 | Exactly the range more, with the right count |
| ClusterState.ClusterNode.RemoveSlot | utils/clusters/node.go:110-115 | One slot less, with the right count |
| ClusterState.ClusterNode.UpdateMessage | utils/clusters/node.go:170-180 | Name, ports, flags and bitmap are taken over, with the right count |
| ClusterState.ClusterState.AddSlotsRange | cmd/ember-server/commands_cluster.go:213-244 | A valid range is added to what this node serves and to the routing table; anything else is refused without effect |
| ClusterState.ClusterState.ClusterSetSlot | utils/clusters/cluster.go:564-646 | Parses exactly the accepted forms; the assignment moves the slot in the bitmap and the routing table and clears both marks, IMPORTING and MIGRATING set their own mark, STABLE clears both; everything else stays |
| SetSlotForms.Understood | utils/clusters/cluster.go:564-646 | Which arguments mean which command, with the keywords byte by byte in upper, lower or mixed case; everything else is refused |
| SetSlotForms.CoordinatorIsUnderstood | utils/clusters/cluster.go:380-399 | A server that knows the node named takes the strings the coordinator sends for what is meant |
| SetSlotForms.ScriptIsUnderstood | utils/clusters/cluster.go:373-551 | So it does with every command of every rebalance |
| ClusterState.ClusterState.AssignSlot | utils/clusters/cluster.go:618-642 | The new owner adds the slot, a server that is not the new owner gives it up, and the slot is neither importing nor migrating any more |
| ClusterState.ClusterState.LearnOf | utils/clusters/gossip.go:51-81 | A gossip entry adds or refreshes one node, with its ports and flags, and touches neither this node's own entry nor any other |
| ClusterState.ClusterState.ProcessGossip | utils/clusters/gossip.go:51-81 | The table gains exactly the names gossiped about and stays keyed by current names; each other node mentioned is at the ports the last entry about it says, and nodes not mentioned stay as they are |
| ClusterState.ClusterState.FileSender | utils/clusters/gossip.go:85-113 | A node known under a temporary name is filed under its own name from then on; a sender not known yet becomes a new node at the connection's address; ports, flags, bitmap and count are taken over, and no other node is renamed |
| ClusterState.ClusterState.ProcessMsg | utils/clusters/gossip.go:85-117 | A bus message keeps the table keyed by current names and all counts right, takes over what sender and gossip say about ports and flags, and never changes which slots this node serves |
| ClusterState.StartHandshake | utils/clusters/cluster.go:74-94 | Exactly one entry is added, a new node without slots under the temporary name, also when the peer cannot be reached; the invariants hold |
| ClusterState.Run | utils/clusters/cluster.go:564-646 | Over every run of ADDSLOTSRANGE, SETSLOT, MEET, new connections and bus messages not sent under this node's name the invariants hold; the names this node knows and the slots it serves at the end are functions of what they were at the start and of the events |
| ClusterState.BusChangesNoSlot | utils/clusters/gossip.go:51-117 | A run without ADDSLOTSRANGE and SETSLOT leaves the slots this node serves as they were, whatever is said on the bus |
| ClusterState.NamesStayKnown | utils/clusters/gossip.go:85-113 | A name that is not temporary stays known for good |
| SlotRanges.GetSlotOwner | utils/clusters/state.go:64-84 | This node if it serves the slot, else some node that claims it, else none |
| SlotRanges.ClusterSlots | cmd/ember-server/commands_cluster.go:36-53 | Ascending, disjoint ranges that cover exactly the slots with an owner, each under a node that owns all of it, and maximal where no slot has two owners |
| SlotRanges.RouterFromSlots | cmd/ember-bench/main.go:151-175 | Rows are taken in order up to the first that is malformed, which is refused, or that leaves the table, which panics; without one, each slot gets the address of the last row that covers it, or none |
| SlotRanges.RouteSlots | cmd/ember-bench/main.go:151-179 | A client that reads CLUSTER SLOTS sends every key to an owner of its slot, and keys of unowned slots nowhere |
| Rebalance.TargetsSum | utils/clusters/cluster.go:191-215 | The target sizes share out all 16384 slots |
| Rebalance.TargetsAreEven | utils/clusters/cluster.go:191-215 | No two targets differ by more than one, and no node gets less than one after it |
| Rebalance.BalancesCancel | utils/clusters/cluster.go:206-215 | From an exact partition the balances cancel out |
| Rebalance.ComputeReshardTable | utils/clusters/cluster.go:296-327 | The loop returns the lowest slots of the node, up to the number asked for |
| Rebalance.LowestSuffice | utils/clusters/cluster.go:296-327 | When the node has that many slots the selection is as long as asked for, all its own, and lower than the rest |
| Rebalance.SliceFits | utils/clusters/cluster.go:245-256 | With counts that match the bitmaps a short selection is impossible: a source gives exactly what it has too much |
| Rebalance.RebalanceNodes | utils/clusters/cluster.go:186-294 | Refuses no nodes; else sets the balances, announces the sum of the positive ones and produces the plan |
| Rebalance.PlanOutcome | utils/clusters/cluster.go:226-290 | Each node takes part in at most one transfer, with its mirror image in the sorted order |
| Rebalance.PlanKeepsPartition | utils/clusters/cluster.go:226-290 | The planned transfers turn an exact partition into an exact partition |
| Rebalance.FinalSize | utils/clusters/cluster.go:226-290 | The size every node ends with |
| Rebalance.SourcesEndOnTarget | utils/clusters/cluster.go:226-290 | Every source ends exactly on its target |
| Rebalance.MovedWithinTotal | utils/clusters/cluster.go:216-221 | No more slots move than announced |
| Rebalance.EvenIffMirrored | utils/clusters/cluster.go:226-290 | One round leaves all nodes on target exactly when the sorted balances mirror each other around the middle |
| Rebalance.ThreeNodesStayUneven | utils/clusters/cluster.go:239-243 | Three nodes, one holding every slot, end with 10923, 0 and 5461 |
| Rebalance.TwoNodesEven | utils/clusters/cluster.go:226-290 | Two nodes both end on target |
| MoveSlots.SendCommands | utils/clusters/cluster.go:329-563 | What was sent when the loop stops is the beginning of the script, every command but the last answered; on success it is all of it; otherwise the last is unanswered or announced a slot that still holds keys; no slot with keys is ever assigned |
| MoveSlots.DuringBlock | utils/clusters/cluster.go:386-551 | What every server serves after each command of one slot's block |
| MoveSlots.EveryPrefixIsSafe | utils/clusters/cluster.go:373-560 | After any number of commands every slot has a server and only the slot in flight can have two, its source and its target |
| MoveMarks.MarksDuring | utils/clusters/cluster.go:386-551 | The marks and the routing table of every server after each command of one slot's block |
| MoveMarks.EveryPrefixIsMarked | utils/clusters/cluster.go:373-560 | After any number of commands the only marks are those of the slot in flight, which is marked on both sides before it is assigned, and every server routes every slot to one of its servers, or the slot in flight still to its source |
| MoveMarks.RebalanceIsMarked | utils/clusters/cluster.go:186-563 | So it is in a rebalance that stops anywhere, from an exact partition and routing tables that agree with it; one that runs to its end leaves no mark, and every server routes every slot to its new server |
| MoveSlots.PlanIsOk | utils/clusters/cluster.go:226-290 | Each planned transfer finds its slots at its source when its turn comes |
| MoveSlots.RebalanceIsSafe | utils/clusters/cluster.go:186-563 | From an exact partition and an accurate snapshot, a rebalance that stops anywhere leaves no slot without a server and at most the one in flight with two |
| MoveSlots.RebalanceEndsInPartition | utils/clusters/cluster.go:186-563 | A rebalance that runs to its end leaves an exact partition, the one the plan describes |
| MoveSlots.RunRebalance | utils/clusters/cluster.go:186-563 | Whatever is answered, whichever slots hold keys and whether or not the last unanswered command took effect, the sending loop leaves no slot without a server and at most the one in flight with two; when it succeeds it leaves the planned partition |
| BusCodec.DecodeEncode | utils/clusters/message.go:80-179 | A message with the right signature and length decodes to its normal form |
| BusCodec.RoundTripIff | utils/clusters/message.go:80-179 | It comes back unchanged exactly when names have at most 40 bytes without trailing NULs, the state has 16 bits and the count is that of the entries |
| BusCodec.EncodeDecode | utils/clusters/message.go:80-179 | Every accepted buffer is rebuilt byte for byte from what was read, and what was read is canonical |
| BusCodec.Layout | utils/clusters/message.go:80-144 | Offset by offset: signature, length, type, ports, sender, flags, state, and for each slot the byte and the bit it stands in |
| BusCodec.FourBytes | utils/clusters/message.go:80-144 | A length or a time is its four bytes, the most significant first |
| BusCodec.NameBytes | utils/clusters/message.go:95-127 | A name field is the name and NUL bytes up to forty |
| BusCodec.EntryLayout | utils/clusters/message.go:121-144 | Offset by offset: name, times, ports and flags of a gossip entry |
| BusCodec.WrongSignatureIsRefused | utils/clusters/message.go:80-94 | A message with any other signature is refused by the other side |
| BusCodec.NameRoundTrip | utils/clusters/message.go:154-155 | A name survives its 40-byte field exactly when it fits and does not end in NUL |
| BusCodec.TemporaryNamesAreCut | utils/clusters/node.go:52-55 | The 41-byte temporary names never survive it |
| BusCodec.Serialize | utils/clusters/message.go:146-179 | The growing buffer ends as the encoding, or nothing when the announced length is wrong |
| BusCodec.Deserialize | utils/clusters/message.go:80-144 | The moving offset reads exactly what the specification reads, or refuses |
| BusCodec.BuildPing | utils/clusters/cluster.go:127-184 | The entries are exactly those the draws select, each known node but this one and the receiver at its first draw, until enough are found, all but one are named or three times as many draws are made; the announced length is the actual one as long as it fits 32 bits |
| BusStream.ReadLoop | utils/clusters/link.go:48-78 | The loop hands over what its specification says and ends as it says, for every stream |
| BusStream.HandsOver | utils/clusters/link.go:48-78 | For every stream: exactly the buffers that the announced lengths cut out, decoded in order, up to the first one the decoder refuses |
| BusStream.EndsOrderlyIff | utils/clusters/link.go:48-78 | The loop ends by returning exactly when every buffer cut out is accepted by the decoder and no header announces less than its own eight bytes |
| BusStream.BareHeaderFails | utils/clusters/link.go:72-74 | A header of eight bytes that announces eight: the decoder refuses it and its nil message is used |
| BusStream.StreamRoundTrip | utils/clusters/link.go:48-86 | Messages written one after the other, cut off inside a further header, are handed over in order in their normal forms |
| BusStream.StreamUnchangedIff | utils/clusters/link.go:48-86 | They come back unchanged exactly when all of them are canonical |
| PubSub.SubscribeKeeps | utils/pubsub/pubsub.go:22-41 | A new channel is listed under its name; what else is listed, closed or pending stays, and the invariant is kept |
| PubSub.UnsubscribeKeeps | utils/pubsub/pubsub.go:43-61 | Exactly a listed channel is closed and unlisted, and an empty subscription disappears |
| PubSub.UnsubscribeAllKeeps | utils/pubsub/pubsub.go:63-72 | Every channel ends closed, none twice, whatever the order |
| PubSub.PublishKeeps | utils/pubsub/pubsub.go:74-95 | A publish never panics and changes nothing but the buffers |
| PubSub.PublishDelivers | utils/pubsub/pubsub.go:74-95 | Exactly the subscribers whose buffer was empty get the message |
| PubSub.PromptReaderGetsAll | utils/pubsub/pubsub.go:74-95 | A subscriber that reads before the next message is published gets every message, in order |
| PubSubHub.Hub.Subscribe | utils/pubsub/pubsub.go:22-41 | The object does one subscribe of the model |
| PubSubHub.Hub.Unsubscribe | utils/pubsub/pubsub.go:43-61 | The search, the removal and the close are one unsubscribe of the model |
| PubSubHub.Hub.UnsubscribeAll | utils/pubsub/pubsub.go:63-72 | The nested loops are one unsubscribe-all of the model in the order taken |
| PubSubHub.Hub.Publish | utils/pubsub/pubsub.go:74-95 | One publish of the model; the count is the number of channels that took the message |
| PubSubRuns.ChannelsAreSafe | utils/pubsub/pubsub.go:22-95 | In every interleaving, also of publishes that send channel by channel under the read lock, no channel is closed twice or sent to after closing, every channel is closed or listed exactly once under its own name, and no empty subscription is stored |
| PubSubRuns.SendIsSafe | utils/pubsub/pubsub.go:86-92 | Each send of a publish goes to an open channel, fills its buffer if that is empty, and changes nothing else, whatever other publishes and receivers have done in between |
| PubSubRuns.PublishAlone | utils/pubsub/pubsub.go:74-95 | A publish that nobody interrupts is one publish of the registry |
| PubSubRuns.PublishersProceed | utils/pubsub/pubsub.go:76-94 | A publish can always move on, so the lock becomes free again |
| PubSubRuns.TornDownLeavesNothing | cmd/ember-server/main.go:43-50 | A connection that has been torn down leaves no open channel behind |
| PubSubRuns.StepKeepsGood | cmd/ember-server/commands_pubsub.go:20-62 | Every step of every connection and publisher keeps each open channel in the map of its own connection, ahead of any loop that is to close it, and every publisher on the subscription as it is |
| SlotAllocation.RangeSizes | cmd/ember-cli/main.go:393-422 | Every range has the floor or the ceiling of 16384 divided by the number of nodes, and at least one slot |
| SlotAllocation.RangesPartition | cmd/ember-cli/main.go:393-422 | Every slot is in exactly one range |
| SlotAllocation.FarFromHalf | cmd/ember-cli/main.go:393-404 | No exact cursor is within 1/(2n) of a half, where rounding would be in doubt |
| SlotAllocation.RoundIsStable | cmd/ember-cli/main.go:401 | Anything that close to a cursor rounds to the same slot |
| SlotAllocation.CursorDrifts | cmd/ember-cli/main.go:393-421 | Under any rounding with the error of float64 the loops' cursor stays within 2 to the -36 per node of the exact one |
| SlotAllocation.LastOf | cmd/ember-cli/main.go:401-408 | In floating point the end of each range is the slot before the exact start of the next; the guards never bite |
| SlotAllocation.AssignSlots | cmd/ember-cli/main.go:393-422 | The first loop, in floating point, marks exactly the node's exact range and counts it |
| SlotAllocation.SendRanges | cmd/ember-cli/main.go:424-460 | The second loop, in floating point, sends every node the range the first loop marked |

## Left out

- Sockets, dialing, deadlines, process start-up, profiling and logging: input and output without a property of their own.
- MIGRATE, RESTORE-ASKING and the dump codec: caller and handler disagree on the number of arguments, so a slot with keys only ends a move; `MoveSlots.SendCommands` models that end.
- RESP3 replies other than bulk strings and arrays: they repeat the same frame and have no reader in the repository.
- `DoubleBuffer.Reset`: only the stale token it may leave behind is modelled, as a parameter of the start state.
- Write statistics, the byte pool and the error value `Close` returns are not modelled.
- Allocation failures and the growth policy of Go slices are not modelled; a slice is its contents.
- KVStore.KVStore.ZAdd: the parser of scores is a parameter that yields reals, so NaN, infinities and rounding are not modelled.
- StoreService.ExecuteOne: the handlers' own arity checks, their MOVED checks and the status text GET sends for a missing key stand outside the model; the checks are modelled for MSET and MGET.
- StoreService.Serve: command names and their spelling are not modelled, a command is the operation it names.
- RespServer.Server.Write: the error itself is a flag, and when the connection fails is a parameter.
- Inner hashes, sets and lists are values: that a Go map inside a stored value is shared until written back is not visible in the model.
- Locking inside the store object: every call of `KVStore` is one step; `MultiKey` takes calls apart.
- FLUSHALL among concurrent calls: it takes the shard locks one after the other and is not a writer in `MultiKey`.
- The reader's end-of-input errors: a body cut short and an input that ends between commands are one error in the model.
- Key expiry: the field is never read.
- Nil entries in the node table, which the planner and the coordinator refuse: nothing stores one.
- The MOVED reply's address and the choice of a peer to ping: the outcome is a parameter.
- Times in the node table, and what flags and ports are used for; `TransferSlot` is never called.
- Several bus messages at once: each message is handled as one step.
- SlotAllocation.AssignSlots: float64 is any rounding within its error bound, not its bits.
