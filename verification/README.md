# Verified model of the key-value store

A Dafny model of a replicated key-value store: its write-ahead log and crash recovery, its transactions and
compaction, log shipping from a leader to followers, the sharded map with exact-LRU eviction and its locks, the
task scheduler and worker pool, and the event loop's client connections. To verify it, use
`dafny verify dfyconfig.toml`.

The main results, in the order the layers build on each other:

- **Records.** The table-driven checksum is the bit-by-bit CRC-32, and damage inside four consecutive bytes of a
  payload always changes it; its residue singles it out. Framing and payload encoding are bijections; any chunking of a stream gives the same
  records.
- **Crash recovery.** For every run of sets, deletes and transactions and every byte at which its log is cut,
  recovery finds exactly the map after the operations wholly written. Recovering again changes nothing. A log is read
  back whole *if and only if* none of its records exceeds 64 MiB, though the store accepts larger ones.
- **Restarts.** For any file: recover, write, recover again is sound for all later writes *if and only if* recovery
  left no transaction open, and of a cut log it does *if and only if* the cut falls in a transaction after its begin
  record. Otherwise every later write is lost, until a compaction.
- **Compaction.** A crash at any step of the rewrite leaves the old log or the new one, and both recover to the map.
  Under any interleaving with writers nothing is logged and unapplied while compaction has the epoch.
- **Log order and apply order.** Writers of two operations may overlap and the log still always recover to the map
  *if and only if* the operations commute, which is exactly when their last mutations of every key they share are the
  same.
- **Replication.** In every run of writes, compactions, partial sends and deliveries, disconnects and restarts, a
  follower holds whole operations of its leader's log file, byte for byte, and their effect. Without compaction, a
  write released by an acknowledgement is in that follower's log; with it, what is released at once is exactly what a
  session of a replaced log had acknowledged. A session overtaken by a compaction before its log is opened is exactly
  what leads a follower astray.
- **Catching up.** From any reachable state some schedule brings a follower level *if and only if* no operation of the
  log exceeds the follower's 64 MiB buffer. A compaction ends such a stall. Even so, two transactions within the limit
  can stall a follower again and again when no read happens to end between them.
- **The sharded map.** The shards refine one map in all four lock modes. With eviction every hit is what an unbounded
  map would say, entries that fit their shard's share stay, victims are the least recently used, and the memory limit
  holds whenever every entry fits a shard's share of it.
- **Concurrency.** Multi-key reads are atomic and commits strictly serial, although locks, mutations and keys are
  taken one at a time, and nothing asked for is lost. Work that clashes is never done at once, no compaction sees a
  write half done, and no set of calls deadlocks, even where waiting writers keep readers out.
- **Scheduling.** Exactly how many serves it takes to serve a Low task, which needs aging and nothing else, and a
  Normal one, which depends on the Low tasks to come: without a bound on them it starves although aging is on. No task is lost, no wake-up is lost, and shutdown drains.
- **Connections.** Input and output are accounted for byte by byte across short reads, short writes, compaction of the
  buffers, pausing and resuming, and no client is left stuck. The input buffer is bounded as long as the session lasts
  and not after.

Objects the source updates in place are classes, loops are loops, and each method is proved against a function on
values; concurrent code is a state machine over its steps. The modules, in dependency order: `Bytes`, `Octets`,
`Crc32`, `Record`, `Protocol`, `Kv`, `Replay`, `Recovery`, `Storage`, `Store`, `Replication`, `CatchUp`, `Reads`,
`OpenLog`, `Cluster`, `Progress`, `Hazards`, `Links`, `LruCache`, `Shards`, `ShardedMap`, `Atomicity`, `Locking`,
`Epoch`, `Scheduler`, `ThreadPool`, `EventLoop`.

Where code and documentation disagree the model follows the code. The usage text of `--aging` promises that
low-priority work cannot starve (`src/main.cpp:58-59`); that is true of Low tasks (`LowIsServed`) and false of Normal
ones (`NormalCanStarve`), for which `NormalServedIff` has the exact condition.

## Model

| member | source | states |
|---|---|---|
| `Bytes.SizeRoundTrip` | src/protocol/commands.cpp:12-17 | a size written in four little-endian bytes reads back exactly when it is below 2^32 |
| `Bytes.SizeBytesOfRead` | src/protocol/command.cpp:11-22 | reading four bytes gives the number whose encoding they are |
| `Bytes.NatBytesAt` | src/wal/record.cpp:26-31 | byte i of a number is its digit i to base 256, lowest first |
| `Octets.ByteRoundTrip` | src/wal/record.cpp:41-50 | the octet standing for a byte stands for no other byte |
| `Octets.OctetRoundTrip` | src/wal/record.cpp:41-50 | every octet is the one standing for its number |
| `Octets.OctetsCount` | src/wal/record.cpp:41-50 | octets stand for numbers in their own order: the first for 0, the next for the next |
| `Crc32.BuildEntry` | src/wal/record.cpp:12-16 | the inner loop of the table computes eight divisions by the polynomial |
| `Crc32.BuildCrcTable` | src/wal/record.cpp:9-19 | every entry of the table is its index divided by eight bits |
| `Crc32.TableStep` | src/wal/record.cpp:45-48 | one table lookup and shift equal feeding a byte bit by bit, for every state and byte |
| `Crc32.Compute` | src/wal/record.cpp:41-50 | the table-driven checksum is the bit-by-bit one, on every byte string |
| `Crc32.Residue` | src/wal/record.cpp:41-50 | the checksum of nothing is 0, and of any bytes followed by their own checksum always 0x2144DF1C, the residue of this polynomial, start value and byte order |
| `Crc32.BitXor` | src/wal/record.cpp:12-16 | dividing is linear over exclusive or |
| `Crc32.FeedAllInjective` | src/wal/record.cpp:45-48 | the same bytes never bring two different states together |
| `Crc32.ShortRunInjective` | src/wal/record.cpp:45-48 | two different runs of at most four bytes lead one state to different states |
| `Crc32.BurstDetected` | src/wal/record.cpp:41-50 | payloads that differ only inside four consecutive bytes have different checksums |
| `Record.BuildFrame` | src/wal/record.cpp:52-61 | the frame built is length, checksum, payload |
| `Record.ParseRecord` | src/wal/record.cpp:63-91 | the verdict on the bytes from an offset, and the offset after the record when there is one |
| `Record.ParseExact` | src/wal/record.cpp:63-91 | parsing gives a payload exactly when the bytes begin with that payload's frame and it is within the limit |
| `Record.CutFrameIsIncomplete` | src/wal/record.cpp:63-80 | every strict prefix of a frame is incomplete, never damaged and never another record |
| `Record.ParseMonotone` | src/wal/record.cpp:63-91 | more bytes never change a verdict already reached |
| `Record.FrameReadableIff` | src/wal/record.cpp:62-86 | a framed payload can be read back exactly when it has at most 64 MiB |
| `Record.ScanSound` | src/wal/wal.cpp:264-288 | scanning splits a buffer into whole frames and a remainder at which no record can be read |
| `Record.ScanUnique` | src/wal/wal.cpp:264-288 | that split is the only one |
| `Record.ChunkingIrrelevant` | src/repl/follower.cpp:232-267 | however a stream is cut into chunks, the same records and remainder come out |
| `Record.DamageFound` | src/repl/follower.cpp:236-248 | a payload damaged inside four consecutive bytes is found at exactly that record of a stream, with all records before it read |
| `Protocol.ReadBlobExact` | src/protocol/command.cpp:24-35 | a blob is read at an offset exactly where its length-prefixed form lies |
| `Protocol.MarkerExact` | src/protocol/commands.cpp:30-65 | a marker parses to an id exactly when the payload is the tag and the id's eight bytes |
| `Protocol.SetExact` | src/protocol/command.cpp:40-72 | a payload is a set command exactly when it is that command's serialised form |
| `Protocol.DelExact` | src/protocol/command.cpp:40-72 | a payload is a delete command exactly when it is that command's serialised form |
| `Protocol.DecodeExact` | src/protocol/commands.cpp:12-78 | decoding inverts encoding on every entry whose blobs fit and on nothing else, so the tags are disjoint |
| `Protocol.WireFormat` | src/protocol/commands.cpp:12-29 | where every byte of a payload lies: its letter, the digits of ids and lengths, the fields |
| `Replay.RecordApplier.ApplyPayload` | src/store/record_applier.cpp:14-53 | accepts exactly what the record state machine accepts, moves to its next state, and counts records and transactions |
| `Replay.RecordApplier.AbandonOpenTransaction` | src/store/record_applier.cpp:55-59 | drops the open transaction and keeps the map |
| `Replay.ReplayLog` | src/wal/wal.cpp:264-303 | on any file contents: the outcome is that of the recursive replay, and the file is cut after the last record applied |
| `Replay.ReplayFrames` | src/wal/wal.cpp:264-288 | whole records that the applier accepts are consumed, and the rest is replayed from the state they leave |
| `Replay.DamageStopsReplay` | src/wal/wal.cpp:264-288 | a payload damaged inside four consecutive bytes stops replay at exactly that record, with the state, counts and length of the records before it |
| `Replay.ReplayAgain` | src/wal/wal.cpp:264-303 | replaying what a replay kept gives the same state and cuts nothing, whatever the file held |
| `Recovery.RunOp` | src/store/record_applier.cpp:14-53 | replaying the records of one operation does to the map what the operation did |
| `Recovery.CrashReplay` | src/wal/wal.cpp:264-303 | replay of a log cut anywhere, from any settled state, applies exactly the operations wholly written |
| `Recovery.CrashRecovery` | src/store/store.cpp:35-47 | for every run and every cut: the map after the operations wholly inside, where the file is cut, and when a transaction is left open |
| `Recovery.RecoveryIsIdempotent` | src/wal/wal.cpp:290-303 | a second recovery truncates nothing and finds the same map and the same open transaction |
| `Recovery.KeptIsALog` | src/wal/wal.cpp:290-303 | with no transaction open the kept file is the log of a prefix of the operations |
| `Recovery.OpenTransactionSwallows` | src/store/record_applier.cpp:17-26 | inside an open transaction no later operation of the log reaches the map |
| `Recovery.WritesAfterDiscardAreLost` | src/store/store.cpp:43-45 | after recovery discarded an open transaction everything written later is lost at the next restart |
| `Recovery.WritesAfterCleanRecoveryAreKept` | src/store/store.cpp:35-47 | otherwise everything written later is there at the next restart |
| `Recovery.RestartComposesIff` | src/wal/wal.cpp:290-303 | whatever file is recovered: recover, write, recover again is sound for all later writes if and only if no transaction was left open |
| `Recovery.LeftOpenIff` | src/store/record_applier.cpp:17-26 | a run's log cut at a byte recovers inside a transaction if and only if the operation cut is a non-empty transaction of which the 17 bytes of the begin record are written |
| `Recovery.CutLeavesTransactionOpen` | src/store/store.cpp:43-45 | the shortest such log, and that some later write is lost after it |
| `Recovery.ReplaySettles` | src/store/record_applier.cpp:14-53 | after replay of any file mutations are buffered only inside a transaction |
| `Recovery.LivesCompose` | src/store/store.cpp:35-47 | over any number of crashes and restarts that leave no transaction open, the map is what the surviving operations make it |
| `Recovery.OversizedWriteIsLost` | src/wal/wal.cpp:120-167 | a set, delete or transaction with a record over the limit is logged without complaint; it and all later writes are lost at restart, and after a transaction recovery ends inside it |
| `Recovery.WholeLogReadIff` | src/wal/wal.cpp:264-288 | the whole log of a run is read back at restart if and only if none of its records is over the limit |
| `Storage.WriteAll` | src/wal/compactor.cpp:31-45 | short writes or a failure leave a prefix of the bytes after the old contents, at every instant; it leaves all of them unless a call failed |
| `Kv.Listing` | src/store/sharded_map.cpp:310-313 | lists every entry of a table once, in any order |
| `Store.ListingReplays` | src/wal/compactor.cpp:71-79 | setting the listed entries in any order makes the map listed |
| `Store.WriteEntries` | src/wal/compactor.cpp:64-79 | unless a call fails the temporary file gets the entries' records; the log is untouched at every instant |
| `Store.Rewrite` | src/wal/compactor.cpp:56-105 | after every file-system step the log is the old one or the complete new one; the new one exactly when no call failed |
| `Store.WriteAheadLog.constructor` | src/wal/wal.cpp:77-98 | the file is created if there is none and appended to from its end |
| `Store.WriteAheadLog.AppendBatch` | src/wal/wal.cpp:138-167 | unless a call fails the frames are appended and the new end returned; at every instant the file is the old one and a prefix of the frames; a failure leaves the offset behind |
| `Store.WriteAheadLog.TruncateAll` | src/wal/wal.cpp:174-185 | the log is empty and the offset zero |
| `Store.WriteAheadLog.ReopenAfterCompaction` | src/wal/wal.cpp:216-232 | the offset is the end of the replaced file |
| `Store.Store.constructor` | src/store/store.cpp:19-47 | started on any file or none, the store holds what recovery finds and knows whether a transaction was discarded; of a run's log cut anywhere that is the operations wholly written |
| `Store.Store.DurableMeansRecoverable` | src/store/store.cpp:35-47 | the log of a durable store recovers to its map |
| `Store.Store.Perform` | src/store/store.cpp:114-131 | log, then apply, exactly when no call fails; at every instant of it the log recovers to the map before or after; a failed append changes no map |
| `Store.Store.Set` | src/store/store.cpp:114-131 | the map gets the entry and the log the operation |
| `Store.Store.Del` | src/store/store.cpp:133-151 | the map loses the key, the log gets the operation, and the answer says whether it was there |
| `Store.Store.CommitTransaction` | src/store/store.cpp:49-89 | the mutations are applied in order and logged as one bracketed batch; an empty transaction is not logged |
| `Store.Store.Compact` | src/store/store.cpp:216-238 | the map is kept; a crash at any instant recovers to it; success heals a log that recovery left inside a transaction |
| `Store.Store.ResetForFullResync` | src/store/store.cpp:199-206 | map and log are empty |
| `Store.Transaction.Buffer` | src/txn/transaction.cpp:18-44 | an active transaction appends the mutation; an inactive one ignores it |
| `Store.Transaction.Get` | src/txn/transaction.cpp:46-58 | reading through the index is reading the store's map with the whole buffer applied in order |
| `Store.Transaction.Commit` | src/txn/transaction.cpp:60-74 | the map becomes exactly what the buffer showed; a failed commit changes neither map nor buffer |
| `Store.Transaction.Rollback` | src/txn/transaction.cpp:76-86 | the buffer is dropped and nothing else changes |
| `Replication.PrefixOfRun` | src/repl/follower.cpp:232-267 | a clean prefix of a log outside any transaction is the log of a prefix of its operations, with their map |
| `Replication.BufferFollows` | src/repl/follower.cpp:250-259 | the record at the head of the receive buffer is the next of the leader's log |
| `Replication.NeverCorrupt` | src/repl/follower.cpp:244-248 | bytes that continue a leader's log never look damaged |
| `Replication.FlushFollows` | src/repl/follower.cpp:281-307 | flushing outside a transaction is never refused and leaves the replay of the longer log |
| `Replication.ConsumeFollows` | src/repl/follower.cpp:197-279 | one read of any size keeps the follower on the leader's log, flushed on a transaction boundary, and acknowledges exactly its log |
| `CatchUp.DropsIff` | src/repl/follower.cpp:257-265 | on a leader's log the link is dropped if and only if the records pending and received exceed the limit |
| `CatchUp.DeliveringAllCatchesUp` | src/repl/follower.cpp:197-279 | when what is pending and received stays within the limit, one read of the rest of the log brings the follower level with it and acknowledges all of it |
| `CatchUp.FlushedOpsAreSmall` | src/repl/follower.cpp:250-277 | what is flushed at once is whole operations, each within the buffer limit |
| `Reads.BytesArrive` | src/repl/follower.cpp:232-277 | read a byte at a time, every operation within the limit is flushed as soon as it is complete |
| `Reads.SomeReadsArriveIff` | src/repl/follower.cpp:232-277 | some sequence of reads brings a follower level with a log if and only if no operation of it exceeds the limit |
| `Reads.UnluckyReadsDrop` | src/repl/follower.cpp:257-277 | reads that all end inside a transaction until more than the limit is due drop the link with nothing flushed |
| `Reads.FullReadsNeverArrive` | src/repl/follower.cpp:221-277 | two transactions of 40 MiB, each within the limit, arrive in one-byte reads and never in full ones |
| `Cluster.StepKeeps` | src/repl/leader.cpp:339-443 | every step of leader, followers and connections keeps the invariant that ties logs, wires and acknowledgements together |
| `Cluster.FollowersArePrefixes` | src/repl/follower.cpp:91-307 | in every state of every run, from any starting log and across restarts of leader and followers, a follower's log is a byte prefix of the leader's log file its token names, made of whole operations, outside any transaction, and its map is their effect |
| `Cluster.LeaderHasAllWrites` | src/store/store.cpp:114-131 | in every state of every run the leader's map is that of all operations asked for, across compactions and restarts |
| `Cluster.FollowersKeepTheirLogs` | src/repl/follower.cpp:91-195 | whatever step is taken a follower keeps its log and token and only adds to the log, except where the handshake tells it to start over |
| `Cluster.AlwaysPossible` | src/store/store.cpp:19-47 | in every state of every run any operation with readable records can be written, any listing of the map can replace the log, and followers and leader can stop and start again |
| `Cluster.SessionsEnd` | src/repl/leader.cpp:185-215 | a session begins with a handshake and ends exactly when it is reaped or its leader restarts |
| `Cluster.LeaderRestartIsRecovery` | src/store/store.cpp:19-47 | a leader that died in the middle of an append and recovered outside any transaction is on the log of its operations, the last one included if it was wholly written |
| `Cluster.CaughtUpMeansEqual` | src/repl/follower.cpp:197-307 | a follower as long as the current log has the leader's map |
| `Cluster.AcknowledgedIsReplicated` | src/repl/leader.cpp:119-159 | an offset acknowledged by a session of the current log is in that follower's log, byte for byte |
| `Cluster.ReleasedAtOnceIffStale` | src/repl/leader.cpp:143-154 | right after a write no follower has it, so a session releases it at once if and only if it is of a replaced log and had acknowledged as much |
| `Cluster.SyncWritesAreReplicated` | src/repl/leader.cpp:119-159 | in runs without compaction that holds of every session |
| `Cluster.OversizedNeverReplicated` | src/repl/follower.cpp:257-265 | in every state of every run no follower holds an operation of its log file whose records exceed the limit |
| `Progress.CatchUpPossibleIff` | src/repl/follower.cpp:197-279 | from any reachable state, the leader left alone, some schedule brings a follower level with the current log if and only if no operation of it exceeds the limit |
| `Progress.CompactionEndsStall` | src/store/store.cpp:216-238 | from any reachable state, after a compaction some schedule brings a follower level, with the leader's map |
| `Progress.FullReadsStall` | src/repl/follower.cpp:221-277 | whenever the log is two transactions of 40 MiB a follower without them may connect, read what it is sent in full reads, drop the link and be where it was, again and again |
| `Progress.PairReached` | src/repl/follower.cpp:221-277 | that state is reached by a run |
| `Progress.AstrayIffOvertaken` | src/repl/leader.cpp:263-278 | from any reachable state whose log a follower can take, a session answered from the start can lead its follower off the file its token names if and only if a compaction has replaced the log it was promised |
| `Hazards.HandshakeRaceDiverges` | src/repl/leader.cpp:263-278 | a run in which compaction falls between the handshake's decision and the opening of the log leaves a follower off the log its token names |
| `Hazards.StaleSessionReleasesUnreplicatedWrite` | src/repl/leader.cpp:148-151 | a run in which the session of a replaced log releases a write that no follower has |
| `OpenLog.OpenLogStopsFollower` | src/repl/follower.cpp:232-295 | the records of a torn transaction and then a whole one, as a leader that recovered inside the first goes on to log, drop the link however they are cut into reads; within the buffer limit the follower has logged both, refused the second and is left with a log that is not clean, beyond it the follower has kept nothing |
| `OpenLog.OpenLogHoldsFollower` | src/repl/follower.cpp:250-277 | until that leader logs another transaction nothing it writes reaches a follower, however it is read |
| `OpenLog.AbsorbParts` | src/repl/follower.cpp:232-266 | taking records from what is received goes on where it stopped, wherever a read ends |
| `Links.FollowerLink.ConsumeChunk` | src/repl/follower.cpp:197-279 | the read loop's parse, buffer, flush and acknowledge do what the protocol's step does, for every chunk |
| `Links.FollowerLink.FlushPending` | src/repl/follower.cpp:281-307 | the batch is logged, then applied record by record, as the protocol's flush does |
| `Links.FollowerLink.EndConnection` | src/repl/follower.cpp:91-99 | a dropped link forgets received and pending bytes and any open transaction, and nothing else |
| `Links.FollowerLink.HandshakeAnswered` | src/repl/follower.cpp:173-195 | a full resync empties map and log and takes the leader's token; a resume changes nothing |
| `Links.Handshake` | src/repl/leader.cpp:339-356 | both sides of a handshake together take the protocol's step, and the session starts sending where the follower then is |
| `Links.LeaderSession.ShipPending` | src/repl/leader.cpp:410-443 | what is sent continues what was sent: every byte of the file in order, none twice, none past the target; unless it is stopped or a call fails, all that the file has up to the target; nothing from an offset beyond the file |
| `Links.LeaderSession.DrainAcks` | src/repl/leader.cpp:445-503 | the counter and the rest of the buffer are those of parsing all text received so far; an overlong line ends the session |
| `Links.DrainInParts` | src/repl/leader.cpp:445-503 | however acknowledgements are cut by the network, the same are counted |
| `Links.AcksArrive` | src/repl/follower.cpp:309-311 | the leader's counter becomes the highest acknowledgement the follower wrote |
| `LruCache.OrderIsRecency` | src/store/lru_policy.cpp:10-59 | over any trace, list and table hold the same distinct keys and the list is in exact descending order of last use |
| `LruCache.VictimIsLeastRecentlyUsed` | src/store/lru_policy.cpp:45-59 | the victim's last use is longer ago than any other key's |
| `LruCache.LruPolicy.MoveToFront` | src/store/lru_policy.cpp:16 | splicing the node an entry points at moves that key to the front and keeps every entry's node right |
| `LruCache.LruPolicy.OnAccess` | src/store/lru_policy.cpp:10-17 | a known key becomes the most recent; an unknown one changes nothing |
| `LruCache.LruPolicy.OnInsert` | src/store/lru_policy.cpp:19-33 | the key becomes the most recent with its new size, and the byte counter stays the sum of sizes |
| `LruCache.LruPolicy.OnErase` | src/store/lru_policy.cpp:35-43 | the key leaves list, table and byte counter |
| `LruCache.LruPolicy.EvictOne` | src/store/lru_policy.cpp:45-59 | the last key of the list leaves list, table and byte counter; nothing if there is none |
| `LruCache.LruPolicy.Entries` | src/store/lru_policy.cpp:10-59 | the table's size is the number of keys listed and the counter the sum of their sizes |
| `Shards.RoundUpToPowerOfTwo` | src/store/sharded_map.cpp:13-22 | the least power of two at or above the request, without overflow |
| `Shards.RoundUpEndsIff` | src/store/sharded_map.cpp:18-20 | the doubling loop reaches the request exactly when that is at most 2^63 |
| `Shards.MaskIsModulo` | src/store/sharded_map.cpp:69-72 | masking with a power of two less one is the remainder |
| `Shards.EvictIfNeeded` | src/store/sharded_map.cpp:74-87 | leaves the shard within budget or with one entry, keeps a front part of the recency list and exactly its entries, and counts what it drops |
| `Shards.KeptIsMost` | src/store/sharded_map.cpp:79-86 | that part fits the budget or is one key, and one key more would not have fitted |
| `Shards.ChargedIsWeight` | src/store/sharded_map.cpp:74-87 | what a policy is charged is what the entries of its shard weigh |
| `ShardedMap.ShardedMap.constructor` | src/store/sharded_map.cpp:50-67 | empty shards, their number the least power of two in sharded mode and one otherwise |
| `ShardedMap.ShardedMap.PlaceIsModulo` | src/store/sharded_map.cpp:69-72 | the shard of a key is its hash modulo the number of shards, in every mode |
| `ShardedMap.ShardedMap.Get` | src/store/sharded_map.cpp:89-145 | the answer is the map's; a hit is also what an unbounded map would say, and becomes its shard's most recently used entry with the others in the order they were in |
| `ShardedMap.ShardedMap.Set` | src/store/sharded_map.cpp:147-180 | the entry is there; an entry is dropped only if those of its shard weigh more than the shard's share of the limit, and then the least recently used ones; evictions count them |
| `ShardedMap.ShardedMap.ShardsWithinShare` | src/store/sharded_map.cpp:74-87 | no shard holds more than its share of the limit unless it holds a single entry |
| `ShardedMap.ShardedMap.TouchingIsUse` | src/store/sharded_map.cpp:119-129 | a key found becomes its shard's most recently used one, with the others in the order they were in |
| `ShardedMap.ShardedMap.Del` | src/store/sharded_map.cpp:182-214 | removes the key from the one map and says whether it was there |
| `ShardedMap.ShardedMap.Size` | src/store/sharded_map.cpp:216-239 | counts every key once, in every mode |
| `ShardedMap.ShardedMap.GetMany` | src/store/sharded_map.cpp:241-300 | answers every key from the same map, touching the keys found in the order asked |
| `ShardedMap.ShardedMap.Snapshot` | src/store/sharded_map.cpp:302-333 | lists every entry once, in every mode |
| `ShardedMap.ShardedMap.ApplyAtomically` | src/store/sharded_map.cpp:335-390 | the batch is applied in order; a touched shard whose entries weigh no more than its share keeps them all, any other is within budget again; evictions account for the difference |
| `ShardedMap.ShardedMap.ServeAll` | src/store/sharded_map.cpp:89-420 | any requests in a row, in any lock mode and over any number of shards, are answered as by one map; with eviction, as by a part of it, so that every hit is right |
| `ShardedMap.Touched` | src/store/sharded_map.cpp:368-375 | the shards of a batch, each once, in ascending order |
| `ShardedMap.ClearShard` | src/store/sharded_map.cpp:413-420 | telling the policy of every key, in any order, empties it |
| `ShardedMap.ShardedMap.Clear` | src/store/sharded_map.cpp:392-420 | map and policies are empty |
| `ShardedMap.ShardedMap.BytesUsed` | src/store/sharded_map.cpp:422-448 | the keys, values and 192 bytes an entry of all entries held, at most the limit when every entry fits a shard's share |
| `ShardedMap.LimitHolds` | src/store/sharded_map.cpp:50-87 | shards within budget whose entries all fit stay within the memory limit together, also when a share rounds up from nothing |
| `Atomicity.StepKeeps` | src/store/sharded_map.cpp:241-390 | every single lock, mutation, key read, unlock and return keeps the invariant |
| `Atomicity.ReadsAreAtomic` | src/store/sharded_map.cpp:241-300 | the answer to every multi-key read asked for is what its keys were after one prefix of the commits, a prefix between its call and its return |
| `Atomicity.WritesAreSerial` | src/store/sharded_map.cpp:335-390 | with no call under way every commit asked for is in the order exactly once, every read asked for is answered exactly once, and the map is that of the commits one after the other |
| `Atomicity.CommitsInTime` | src/store/sharded_map.cpp:377-390 | a commit has its place in the order between its call and its return, so after every commit that returned before |
| `Atomicity.SomeoneCanGoOn` | src/store/sharded_map.cpp:377-381 | while a call is under way one that is can take its next step |
| `Atomicity.EveryStepCounts` | src/store/sharded_map.cpp:377-390 | every step of a call brings it nearer to its return |
| `Atomicity.RunsToIdle` | src/store/sharded_map.cpp:241-390 | any run goes on, without new calls, to a state with no call under way |
| `Atomicity.AnyCommit` | src/store/sharded_map.cpp:335-390 | in any state of any run a thread in no call can commit any mutations, and the run goes on to a quiet state |
| `Atomicity.AnyRead` | src/store/sharded_map.cpp:241-300 | in any state of any run a thread in no call can read any keys, and the run goes on to a quiet state |
| `Locking.CallOrdered` | src/store/store.cpp:114-131 | each call asks for locks only above those it holds (epoch, log, leader's mutex, shards ascending), does each piece of its work under the locks that protect it, and returns them all |
| `Locking.ProgramDoes` | src/store/store.cpp:49-238 | without its locks the program of every call is the work of that call in order: append before apply, copy before rewrite |
| `Locking.SomeoneMustStep` | src/store/sharded_map.cpp:377-381 | where every thread is so disciplined, one of the unfinished can step, even if waiting writers keep readers out |
| `Locking.NeverDeadlocked` | src/store/store.cpp:216-227 | no reachable state of any threads making any calls is deadlocked |
| `Locking.EveryStepIsProgress` | src/store/sharded_map.cpp:275-298 | every step is one of finitely many, so every schedule ends with all calls returned |
| `Locking.WorkExcluded` | src/store/sharded_map.cpp:160-390 | in every reachable state no two threads are about to change one shard, or one to change and one to look at it, nor to use the log, the sessions or the log's file at once |
| `Locking.NoWriteHalfDone` | src/store/store.cpp:216-227 | in every reachable state no compaction or reset is at work while a write is in the log and not yet wholly in the map |
| `Epoch.CompactionIsExact` | src/store/store.cpp:216-238 | under any interleaving nothing is logged and unapplied while compaction has the epoch, and the new log recovers to the map |
| `Epoch.LogMatchesMap` | src/store/store.cpp:116-122 | while operations in flight together commute, the log recovers to the map whenever none is half done |
| `Epoch.WritersAreHeard` | src/store/store.cpp:116-122 | in every state of every run the map is that of the operations the writers came with, in the order applied, and until it is replaced the log has them in the order logged |
| `Epoch.EachOnce` | src/store/store.cpp:116-122 | every writer logs and applies once for each time it enters |
| `Epoch.EpochIsShared` | src/store/store.cpp:116-116 | in every reachable state a writer outside may enter exactly when compaction does not have the epoch, and compaction may take it exactly when no writer is inside |
| `Epoch.SomeoneCanGoOn` | src/store/store.cpp:114-238 | while the epoch is held one of those who hold it can take its next step |
| `Epoch.EveryStepCounts` | src/store/store.cpp:114-238 | every such step brings its holder nearer to giving the epoch back |
| `Epoch.OverlapIsSafeIff` | src/store/store.cpp:116-122 | overlapping writers of two operations leave log and map in agreement in every run if and only if, on every key both touch, their last mutations are the same |
| `Epoch.CommuteIff` | src/store/store.cpp:114-131 | two operations commute on every map if and only if, on every key both touch, their last mutations are the same |
| `Epoch.Crossing` | src/store/store.cpp:116-122 | a run that logs two operations in one order and applies them in the other |
| `Epoch.SetsCommuteIff` | src/store/store.cpp:114-131 | two sets commute exactly when they are of different keys or of the same value |
| `Epoch.DisjointCommute` | src/store/store.cpp:49-89 | operations on disjoint keys commute |
| `Scheduler.PriorityQueue.PushTask` | src/pool/task_queue.cpp:82-88 | the task goes to the end of its level with the next sequence number |
| `Scheduler.PriorityQueue.PopTask` | src/pool/task_queue.cpp:90-122 | takes the head of the level the policy picks, promoting a lower one when due; nothing exactly when the queue is empty |
| `Scheduler.LevelsAreFifo` | src/pool/task_queue.cpp:82-122 | over any trace each level is first in, first out: nothing is lost, duplicated or overtaken within it |
| `Scheduler.LowIsServed` | src/pool/task_queue.cpp:95-108 | with aging and threshold T, a Low task at position p is served within (p+1)(T+1) serves, whatever arrives meanwhile |
| `Scheduler.NormalIsServed` | src/pool/task_queue.cpp:95-108 | a Normal task at position p, with q Low tasks queued or arriving, is served within (p+q+1)(T+1) serves |
| `Scheduler.LowServedIff` | src/pool/task_queue.cpp:95-118 | so many serves take the Low task at position p whatever arrives if and only if they are more than p(T+1) and the serves until the next promotion |
| `Scheduler.LowServedIffAging` | src/pool/task_queue.cpp:95-118 | some number of serves is enough for a Low task whatever arrives if and only if aging is on |
| `Scheduler.NormalServedIff` | src/pool/task_queue.cpp:95-118 | with at most l Low tasks to come, so many serves take the Normal task at position p whatever else arrives if and only if they are more than (p+q+l)(T+1) and the serves until the next promotion, q being the Low tasks queued |
| `Scheduler.NormalCanStarve` | src/pool/task_queue.cpp:96-99 | with Low and High tasks arriving throughout, no Normal task is taken in any number of serves, although aging is on |
| `Scheduler.PromotionsAreApart` | src/pool/task_queue.cpp:95-118 | between two promotions there are at least T ordinary serves |
| `ThreadPool.TasksAreConserved` | src/pool/thread_pool.cpp:28-108 | in every state of every run each accepted task is queued, in a worker's hands or finished, as often as it was accepted |
| `ThreadPool.AcceptedAreSubmitted` | src/pool/thread_pool.cpp:28-70 | in every state of every run the tasks accepted are those submitted before the first shutdown, and the pool is stopping exactly after one |
| `ThreadPool.ShutdownDrains` | src/pool/thread_pool.cpp:53-108 | when all workers have left, shutdown was requested, the queue is empty and every accepted task has finished |
| `ThreadPool.NeverStuck` | src/pool/thread_pool.cpp:72-108 | while there is work, or workers still to leave, some worker or wake-up can move: no wake-up is lost |
| `ThreadPool.OwnStepsEnd` | src/pool/thread_pool.cpp:72-108 | every step of workers and wake-ups brings the pool nearer to rest, so without new tasks it drains, sleeps or ends |
| `ThreadPool.NobodySleepsThroughWork` | src/pool/thread_pool.cpp:28-43 | in every state of every run, while a worker sleeps every queued task has a worker about to look or a wake-up on its way |
| `ThreadPool.Drains` | src/pool/thread_pool.cpp:72-108 | from any state of any run the pool by itself can finish all that it has accepted |
| `ThreadPool.TaskGetsDone` | src/pool/thread_pool.cpp:28-108 | in any state of any run before shutdown a task can be submitted and brought to its end with all before it |
| `EventLoop.Client.HandleClient` | src/net/event_loop.cpp:102-138 | after any readiness event: bytes received are the lines handled and the buffer left, bytes sent and unsent are the replies in order, what the socket takes of the waiting output is sent, a broken connection is closed, the input buffer is within its bound and the output throttled while the session lasts, and a client not closed is not stuck |
| `EventLoop.Client.OnReady` | src/net/event_loop.cpp:102-125 | what the socket is ready for is served with the same account kept; a client given up has a broken connection or too much output |
| `EventLoop.Client.Overfill` | src/net/event_loop.cpp:140-173 | once the session is over and its last reply is not all sent, reads go on filling the input buffer beyond any limit, and nothing of it is handled |
| `EventLoop.QuitAndOverfill` | src/net/event_loop.cpp:140-173 | every client whose session quits on its first line with a reply that is not taken can come to that |
| `EventLoop.Client.ReadFrom` | src/net/event_loop.cpp:140-167 | exactly what is read is appended to the buffer; a paused client is not read from |
| `EventLoop.Client.TakeInput` | src/net/event_loop.cpp:110-116 | one read and the answers it allows; when the peer has closed no unanswered line is left unless the session is over |
| `EventLoop.Client.Exchange` | src/net/event_loop.cpp:110-120 | one read, its answers, and then what the socket takes of the output, that waiting before first |
| `EventLoop.Client.ProcessInput` | src/net/event_loop.cpp:169-206 | answers lines until none is left, the session ends or too much output waits; a line left over means paused or closing; a client still read from has at most 1 MiB of output waiting, and any other at most one reply more than that or than it had |
| `EventLoop.Client.AnswerLine` | src/net/event_loop.cpp:184-199 | takes the first line off the buffer and queues the session's reply to it |
| `EventLoop.Client.AnswerNext` | src/net/event_loop.cpp:184-205 | after a line it stops if the session quit, and pauses exactly when more than 1 MiB of output waits |
| `EventLoop.Client.RefuseLine` | src/net/event_loop.cpp:176-182 | an overlong line gets its refusal as the last reply, and the client is closed once that is sent |
| `EventLoop.Client.WriteOut` | src/net/event_loop.cpp:208-223 | exactly what the socket takes until it is full or broken is sent, in order; a connection is given up exactly when it breaks before all is sent |
| `EventLoop.Client.MakeRoom` | src/net/event_loop.cpp:225-239 | forgetting written bytes leaves the unsent ones |
| `EventLoop.Client.Resume` | src/net/event_loop.cpp:225-239 | a drained client that was paused has its waiting lines served; a client left paused has output to drain |
| `EventLoop.Client.Flush` | src/net/event_loop.cpp:208-248 | what the socket takes is sent; a drained client is resumed and its waiting lines served; otherwise write interest is registered |
| `EventLoop.Client.UpdateInterest` | src/net/event_loop.cpp:250-260 | registered interest is read unless paused, write while output is unsent |
| `EventLoop.HandledAreTheLines` | src/net/event_loop.cpp:175-194 | the lines handled and the buffer left are the split of all bytes received, however the reads cut them |
| `EventLoop.StrippedIs` | src/net/event_loop.cpp:187-190 | the session is given a line without one carriage return at its end, and otherwise as it came |

## Left out

- Sockets, connection set-up, signals, argument parsing and the poller: readiness, reads and writes are arbitrary inputs of a step.
- Text commands and reply strings: the event loop's session is any function from a line and its number to a reply and whether to close.
- Durability against power loss: `fsync`, the interval sync thread and directory syncs; written bytes count as kept.
- Failing `ftruncate` and reopening calls, which throw in the source.
- Store.Store.Perform: after a failed append the log may hold part of the operation and the object promises no more than that the map is unchanged.
- A follower process that dies in the middle of a batch append or between append and apply.
- The text of the handshake; its decision and both sides' effects are modelled. Acknowledgement text is modelled.
- Reuse of inode numbers: each replaced log file has a new token.
- Cluster.FollowersArePrefixes: for runs in which no compaction falls between a handshake's decision and the opening of the log, and leaders that recovered outside any transaction. `Progress.AstrayIffOvertaken` and `OpenLog.OpenLogStopsFollower` show the need of both.
- Progress.AstrayIffOvertaken: for sessions answered from the start and logs without an operation over the buffer limit, which no follower can pass. For a resumed session the condition is only sufficient: the bytes at its offset of the new log may fall in the middle of a record, and then the link is just dropped; `Hazards.HandshakeRaceDiverges` and `Cluster.StepKeeps` cover it one way.
- Cluster.AcknowledgedIsReplicated: for sessions of the current log; `Cluster.ReleasedAtOnceIffStale` says exactly what the others release.
- A leader that dies during a compaction: `Store.Rewrite` covers what its files hold then; the cluster's restart step is a death during an append.
- Eviction in the equalities of recovery and replication: evictions are not logged.
- Shards.EvictIfNeeded: works on the shard as a value, its policy being the value that `LruCache.LruPolicy` stands for; aliasing between a shard and its policy object is not captured.
- `ShardedMap.ShardedMap` under concurrent calls: that is `Atomicity`, on one map whose keys are placed on shards, without eviction. `LockMode::None` under concurrency is racy by design.
- Atomicity.ReadsAreAtomic: whole-map scans (`size`, `snapshot`) are not steps of that machine; a scan's answer for any list of keys is that of a multi-key read holding more locks.
- Locking.NeverDeadlocked: a follower's own mutex, under which no other lock is taken, is not included; the leader's timed wait counts as giving its mutex back and taking it again.
- Locking.ProgramDoes: the source counts each shard as it locks it; the program looks once it has all the locks.
- Epoch.CompactionIsExact: applying a batch to the map is one step, as `Atomicity` justifies for readers of the map.
- First-come and round-robin queues, statistics, lag percentiles, counters of hits and misses, name parsers and benchmarks: nothing else in the program depends on them.
