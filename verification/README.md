# A verified model of tokio-kafka

This project models the parts of the tokio-kafka client whose correctness depends on
several pieces working together, and proves what they promise about each other:

- **Consumer groups** (`Names`, `ClusterMetadata`, `Assignor`, `RangeAssignor`, `RoundRobinAssignor`,
  `Schema`, `ConsumerProtocol`, `Subscriptions`, `Coordinator`, `Rebalance`). The two assignors are
  proved to be exact covers, the consumer protocol to carry an assignment unchanged, and on top of
  that a transition system of any number of consumers and a broker is proved safe over whole runs:
  no partition has two owners in a generation.
- **The producer** (`MessageSet`, `Builder`, `Producer`). Message sets are written with back-patched
  sizes and checksums and read back; batches keep their size bound; records are conserved in order
  through any interleaving of pushes, flushes and drains; every accepted record is completed at most
  once, at the right offset.
- **The wire** (`Wire`, `Layout`, `Requests`, `Codec`). Sizes agree with encodings, every request is
  readable from its kind and version alone, and the codec's decoding does not depend on how the
  stream is cut, with the exact exception.
- **The connection pool** (`Pool`). Its invariants hold under every interleaving of connections
  becoming idle, checkouts being polled and checkouts being dropped, and waiting
  checkouts are served first come, first served.
- **Stream codecs** (`Lz4`, `Snappy`, `Varint`). LZ4 frames and varints round trip; the three snappy
  readers agree, with the exact exception.
- **Delivery** (`Delivery`). While nothing seeks a partition, takes it away or updates its position,
  the poll loop hands out its records once and in order, and its position is what was handed out,
  provided what was already requested or queued for it began there.

Objects the source updates in place are classes whose methods are proved against functions on
values; loops of the source are loops with invariants; runs are sequences of states.

Clocks, broker replies, one-shot channels, the iteration order of hash maps and the completion of
futures are parameters or nondeterministic steps. CRC-32, xxHash, the block compressors and the
response parsers are function parameters, with the laws they need stated as preconditions.
Rust strings are their UTF-8 bytes.

Where a promise turned out not to hold of the code as written, the code is modelled as it is and the
exact condition is proved:

- A member for which the leader has no share is answered with an empty byte string, which does not
  decode, so it cannot become stable (`Rebalance.NoShareNoSync`). The range assignor leaves a member
  out exactly when it subscribes to no known topic (`RangeAssignor.RangeIncludes`). With equal
  subscriptions the round-robin assignor leaves nobody out exactly when there are at least as many
  partitions as members (`RoundRobinAssignor.RoundRobinIncludesAll`); with differing ones it can do so
  even then (`RoundRobinAssignor.RoundRobinSkips`).
- `resume` pauses (`Subscriptions.SubscriptionState.Resume`).
- A partition lookup goes by position, and agrees with a search by id exactly when the broker listed
  every topic's partitions in order (`ClusterMetadata.LookupByPosition`).
- A message set is read back exactly when the version and its low byte have the same sign and every
  message's size field holds: it fits 31 bits, or it wraps around past 2^32 to a length whose checksum
  happens to be that of the whole (`MessageSet.MessageSetRoundTrip`).
- A response too short for the parser of its request swallows its frame and holds up the frames
  behind it until more bytes arrive; decoding is independent of how the stream is cut exactly when
  that does not happen (`Codec.FramesIndependent`). It happens to a heartbeat response that ends after
  its correlation id (`Codec.StallHappens`).
- A failed first attempt to send a batch is final for its records even if a retry succeeds
  (`Producer.CompletionOfSends`).
- Reading a snappy stream piece by piece stops early at a chunk that decompresses to nothing
  (`Snappy.ReadersAgree`, `Snappy.EmptyChunkHides`), and a chunk of length zero is refused by the reader only
  (`Snappy.ZeroChunk`).
- Updating positions moves a partition to its committed offset or a reset one, and leaves it where it
  was exactly when that offset is its position or there is none (`Delivery.WholeUpdate`).
- A user's seek to an offset decides what is delivered, until the next update begins, exactly when no
  other offset is requested or queued first for the partition and no update under way has asked for
  its offset (`Delivery.SeekHonoured`). The end of an update under way overwrites it exactly when it
  brings another offset for the partition (`Delivery.SeekDuringUpdate`), as it can right after joining
  (`Delivery.SeekWhileJoining`). The next update leaves the partition where the seek and the records
  delivered since have brought it exactly when the commit is there or, with a reset pending or nothing
  committed, the broker names that offset or none (`Delivery.SeekSurvivesUpdate`).
- A seek to the beginning or the end waits for the next update exactly when no record of the partition
  is on its way or will be fetched before, and no update under way has asked for its offset or is
  followed by a fetch of it (`Delivery.ResetHonoured`); then the next update asks for that end
  (`Delivery.ResetTakesEffect`).
- The range assignor balances members that list a topic equally often. One that lists a topic several
  times has that many blocks of it (`RangeAssignor.RangeShareSize`), and the exact condition for two
  members to be within one partition is `RangeAssignor.RangeBalanced`.

`dafny verify dfyconfig.toml` verifies the whole project.

## Model

| member | source | states |
|---|---|---|
| `Rebalance.RebalanceSafety` | src/consumer/coordinator.rs:208-308 | in every state of every run, two consumers stable in one generation hold no partition in common, and every consumer holds only topics it subscribed to |
| `Rebalance.StableHoldsItsShare` | src/consumer/coordinator.rs:291-308 | in every reachable state a stable consumer holds exactly the partitions of the share its leader supplied for that generation |
| `Rebalance.NoShareNoSync` | src/consumer/coordinator.rs:460-522 | a member the leader supplied nothing for cannot complete its sync |
| `Rebalance.HonestMemberSyncs` | src/consumer/coordinator.rs:460-522 | in any reachable state a member whose last bytes declare its subscription truthfully and that was given a share can adopt it, and is then stable in that generation and holds it |
| `Rebalance.SettledCovers` | src/consumer/coordinator.rs:208-289 | once every member with a share is stable, each known partition of each topic that a member's last bytes declare is held by a stable consumer |
| `Rebalance.StepInv` | src/consumer/coordinator.rs:310-457 | every step, late heartbeat errors included, keeps: stable consumers hold their share, and held partitions lie within the subscription |
| `Coordinator.PerformedDisjoint` | src/consumer/coordinator.rs:208-289 | whatever bytes members sent as metadata, no two shares the leader produces grant one partition |
| `Coordinator.ShareArrives` | src/consumer/coordinator.rs:460-522 | a member decodes from its share exactly what the assignor assigned it |
| `Coordinator.AssignmentUnderCovers` | src/consumer/assignor.rs:56-69 | under either strategy the result is an exact cover in topic order without user data |
| `Coordinator.MembersDecoded` | src/consumer/coordinator.rs:222-231 | the members decode exactly when every entry does; then exactly the ids with an entry are there, each with what its last entry declares |
| `Coordinator.NamedIsDeclared` | src/consumer/coordinator.rs:222-231 | the group's topics are those that some entry declares |
| `Coordinator.PerformedExactly` | src/consumer/coordinator.rs:208-289 | the leader succeeds exactly when it offers the range or round-robin strategy that was agreed on, all entries decode and all shares fit |
| `Coordinator.RangePerformed` | src/consumer/coordinator.rs:208-289 | under "range" each member decodes one contiguous block of each known topic, placed by its rank |
| `Coordinator.RoundRobinPerformed` | src/consumer/coordinator.rs:208-289 | under "roundrobin" with equal subscriptions the numbers of partitions decoded differ by at most one |
| `Coordinator.ConsumerCoordinator.PerformAssignment` | src/consumer/coordinator.rs:208-289 | decoding, assigning and encoding give the specified shares, or fail exactly when a part does, and the group's subscription grows by exactly the topics the members named |
| `Coordinator.ConsumerCoordinator.Decode` | src/consumer/coordinator.rs:222-231 | the members' subscriptions and the topics they name, or failure exactly when some entry does not decode |
| `Coordinator.ConsumerCoordinator.Encode` | src/consumer/coordinator.rs:276-286 | each member's assignment serialized, or failure |
| `Coordinator.ConsumerCoordinator.RunAssignor` | src/consumer/coordinator.rs:214-233 | the assignment of the strategy the group agreed on |
| `Coordinator.ConsumerCoordinator.SyncedGroup` | src/consumer/coordinator.rs:291-308 | adopts the assignment and becomes stable, or changes nothing, exactly when it does not decode or a topic is not subscribed |
| `Coordinator.ConsumerCoordinator.EnsureActive` | src/consumer/coordinator.rs:434-457 | which of the three ways into the group the state calls for |
| `Coordinator.ConsumerCoordinator.HeartbeatFailed` | src/consumer/coordinator.rs:310-383 | the state each heartbeat error leads to, whatever the current state is |
| `Coordinator.ConsumerCoordinator.Leaved` | src/consumer/coordinator.rs:142-145 | leaves only the state changed |
| `RangeAssignor.RangeExactCover` | src/consumer/assignor.rs:156-204 | for every metadata and subscription map each known partition of each subscribed topic goes to exactly one member, a subscriber, in topic order |
| `RangeAssignor.RangeIncludes` | src/consumer/assignor.rs:156-204 | a member gets an entry exactly when it subscribes to a known topic |
| `RangeAssignor.RangeContiguous` | src/consumer/assignor.rs:185-199 | a member's partitions of a topic are one contiguous block placed by its rank |
| `RangeAssignor.RangeShareSize` | src/consumer/assignor.rs:185-199 | however often a member lists a topic, it gets the quotient each time, plus one for each of its places before the remainder |
| `RangeAssignor.RangeBalanced` | src/consumer/assignor.rs:185-199 | listed equally often, x times, smaller ids have the larger shares, by at most x; in general two shares are within one exactly when quotient, remainder and ranks even out |
| `RangeAssignor.StartClosedForm` | src/consumer/assignor.rs:185-199 | where each block starts, in closed form |
| `RangeAssignor.GroupByTopic` | src/consumer/assignor.rs:161-170 | the loop lists, for each topic, its subscribers as often as they name it |
| `RangeAssignor.AddMember` | src/consumer/assignor.rs:163-170 | one member's topics are recorded |
| `RangeAssignor.DealBlocks` | src/consumer/assignor.rs:188-199 | splitting off the front of the vector hands out the specified blocks |
| `RangeAssignor.DealOut` | src/consumer/assignor.rs:185-199 | quotient and remainder give the cuts of the specification |
| `RangeAssignor.AssignTopic` | src/consumer/assignor.rs:178-200 | one topic is dealt to its sorted subscribers |
| `RangeAssignor.AssignTopics` | src/consumer/assignor.rs:172-203 | all topics, in an order that does not matter to the result |
| `RangeAssignor.Assign` | src/consumer/assignor.rs:156-204 | the whole algorithm computes the specified assignment for any iteration order |
| `RoundRobinAssignor.RoundRobinExactCover` | src/consumer/assignor.rs:247-293 | exact cover, in topic order |
| `RoundRobinAssignor.RoundRobinBalanced` | src/consumer/assignor.rs:247-293 | with identical subscriptions any two counts differ by at most one |
| `RoundRobinAssignor.RoundRobinStarts` | src/consumer/assignor.rs:272-291 | the first partition goes to the first member, in ascending order, that wants its topic |
| `RoundRobinAssignor.RoundRobinTurns` | src/consumer/assignor.rs:272-291 | each further one goes to the next member, going around, that wants its topic |
| `RoundRobinAssignor.RoundRobinLeavesOut` | src/consumer/assignor.rs:247-293 | with fewer partitions than members some member gets no entry |
| `RoundRobinAssignor.RoundRobinIncludesAll` | src/consumer/assignor.rs:247-293 | with equal subscriptions every member gets an entry exactly when there are at least as many partitions as members |
| `RoundRobinAssignor.RoundRobinSkips` | src/consumer/assignor.rs:274-291 | with differing subscriptions a subscriber of a known topic can be left out though there are enough partitions |
| `RoundRobinAssignor.Seek` | src/consumer/assignor.rs:277-288 | the unbounded cyclic search ends, at the first subscriber from the current position on |
| `RoundRobinAssignor.DealTopic` | src/consumer/assignor.rs:275-290 | a topic's partitions are dealt in turn |
| `RoundRobinAssignor.CollectTopics` | src/consumer/assignor.rs:259-270 | the subscribed topics, each once and in order |
| `RoundRobinAssignor.AssignTopics` | src/consumer/assignor.rs:272-291 | all topics in order |
| `RoundRobinAssignor.Assign` | src/consumer/assignor.rs:247-293 | the whole algorithm computes the specified assignment |
| `ClusterMetadata.LookupByPosition` | src/client/metadata.rs:115-125 | for every partition asked about the lookup by position finds what a search by stored id finds, exactly when every topic's partitions were listed in order |
| `ClusterMetadata.LeaderIsListed` | src/client/metadata.rs:109-125 | with partitions listed in order, a leader is found exactly when the entry under the partition's id names a listed broker |
| `ClusterMetadata.PartitionsForTopic` | src/client/metadata.rs:127-137 | partitions are numbered by their index |
| `ClusterMetadata.FindBroker` | src/client/metadata.rs:105-107 | finds a broker with that id if and only if there is one |
| `ConsumerProtocol.AssignmentRoundTrip` | src/consumer/protocol.rs:87-156 | deserializing a serialized assignment gives the stable sort by topic, with empty user data absent, and fails exactly for a name that is not UTF-8 |
| `ConsumerProtocol.SortedAssignmentArrives` | src/consumer/protocol.rs:87-156 | what the assignors produce arrives unchanged |
| `ConsumerProtocol.AnyVersionAssignment` | src/consumer/protocol.rs:121-156 | an assignment under any other version, with any bytes behind it, is read alike, and refused exactly for a negative version or a name that is not UTF-8 |
| `ConsumerProtocol.ByTopicIsStableSort` | src/consumer/protocol.rs:92-115 | grouping by topic and sorting the topics keeps each topic's partitions in order |
| `ConsumerProtocol.StableSortUnique` | src/consumer/protocol.rs:92-115 | and only one vector does so |
| `ConsumerProtocol.SortedStays` | src/consumer/protocol.rs:92-115 | it leaves a vector in topic order alone |
| `ConsumerProtocol.EncodeAssignmentSucceeds` | src/consumer/protocol.rs:87-119 | serializing fails exactly when a length does not fit its field |
| `ConsumerProtocol.SubscriptionRoundTrip` | src/consumer/protocol.rs:40-85 | a subscription arrives with the same topics, sorted |
| `ConsumerProtocol.AnyVersionSubscription` | src/consumer/protocol.rs:62-85 | the same of a subscription |
| `ConsumerProtocol.DecodedTopicsUtf8` | src/consumer/protocol.rs:62-85 | whatever was decoded has UTF-8 topics |
| `ConsumerProtocol.Group` | src/consumer/protocol.rs:92-99 | the loop that fills the map by topic |
| `ConsumerProtocol.CollectGroups` | src/consumer/protocol.rs:101-115 | the sorted vector made from the map |
| `ConsumerProtocol.SerializeAssignment` | src/consumer/protocol.rs:87-119 | serialization computes the specified bytes |
| `ConsumerProtocol.SerializeSchema` | src/protocol/schema.rs:597-645 | the struct's fields are written one behind the other |
| `ConsumerProtocol.DeserializeTopic` | src/protocol/schema.rs:1036-1057 | one topic with its ids |
| `ConsumerProtocol.DeserializeTopics` | src/protocol/schema.rs:980-1000 | the visitor's loop over a sequence |
| `ConsumerProtocol.DeserializeAssignment` | src/consumer/protocol.rs:121-156 | deserialization computes the specified value or fails with it |
| `Schema.StrRoundTrip` | src/protocol/schema.rs:793-813 | a string is read back exactly when it is UTF-8 |
| `Schema.StrExact` | src/protocol/schema.rs:793-813 | a negative length reads as empty, one not covered by UTF-8 is refused |
| `Schema.NullableRoundTrip` | src/protocol/schema.rs:270-286 | nullable bytes survive, empty becoming absent |
| `Schema.NullableExact` | src/protocol/schema.rs:347-362 | nullable bytes are read as far as there are any |
| `Schema.I32sRoundTrip` | src/protocol/schema.rs:980-1000 | a sequence of numbers is read back |
| `Schema.SchemaDeserializer.I16` | src/protocol/schema.rs:695-703 | reads two bytes and advances |
| `Schema.SchemaDeserializer.I32` | src/protocol/schema.rs:705-713 | reads four bytes and advances |
| `Schema.SchemaDeserializer.Str` | src/protocol/schema.rs:793-813 | reads a string and advances |
| `Schema.SchemaDeserializer.I32s` | src/protocol/schema.rs:980-1000 | reads a counted sequence and advances |
| `Schema.SchemaDeserializer.Nullable` | src/protocol/schema.rs:347-362 | reads nullable bytes and advances |
| `Rebalance.KeptThroughRun` | src/consumer/subscriptions.rs:82-97 | through any stretch of a run a partition held throughout keeps its position, commit, pause flag, watermark and reset strategy |
| `Subscriptions.KeptUntouched` | src/consumer/subscriptions.rs:82-97 | a partition assigned in each of any number of rounds keeps its whole state; any other starts afresh |
| `Subscriptions.SubscriptionState.AssignFromSubscribed` | src/consumer/subscriptions.rs:82-97 | adopts the partitions, keeping known states, or changes nothing when a topic is not subscribed |
| `Subscriptions.SubscriptionState.Seek` | src/consumer/subscriptions.rs:115-130 | moves one assigned partition and no other |
| `Subscriptions.SubscriptionState.GroupSubscribe` | src/consumer/subscriptions.rs:71-74 | topics are added to the group's |
| `Subscriptions.SubscriptionState.Pause` | src/consumer/subscriptions.rs:167-174 | pauses an assigned partition and no other |
| `Subscriptions.SubscriptionState.Resume` | src/consumer/subscriptions.rs:176-183 | leaves the partition paused and not fetchable |
| `Pool.PoolSafety` | src/network/pool.rs:77-325 | in every state of every run no address is both idle and parked, no list is empty, each stored or sent connection is idle and in one place, no checkout waits while a connection of its address is stored, and between two handouts of a connection it was returned |
| `Pool.StepKeeps` | src/network/pool.rs:77-325 | every step keeps the pool's invariant and its agreement with the history |
| `Pool.PutKeeps` | src/network/pool.rs:77-107 | storing or sending a connection that is nowhere keeps the invariant |
| `Pool.PollKeeps` | src/network/pool.rs:245-325 | a poll keeps the invariant and hands out only idle connections |
| `Pool.PollOutcome` | src/network/pool.rs:245-325 | a checkout gets what was sent to it, or the latest stored connection that has not been idle for longer than the timeout, or goes to the end of the queue of its address unless it stands there; the queues do not change otherwise |
| `Pool.ReturnOutcome` | src/network/pool.rs:210-224 | a returned connection goes to the first of its queue not dropped, the others staying in line, and is stored behind the others exactly when there is none |
| `Pool.NotStored` | src/network/pool.rs:210-224 | one that is idle already, or comes to a disabled pool, is neither stored nor sent |
| `Pool.FirstComeFirstServed` | src/network/pool.rs:77-144 | in every run a returned connection goes to the checkout of its address, still in progress, that began to wait before all others, and to no other |
| `Pool.IdleSince` | src/network/pool.rs:210-224 | in every run an idle connection has been idle since the time it was last said to be, and was not handed out since |
| `Pool.HandedOutInTime` | src/network/pool.rs:273-305 | in every run a connection taken from storage was returned no longer ago than the timeout |
| `Pool.FirstLive` | src/network/pool.rs:83-92 | the first waiter not dropped, if any |
| `Pool.KeptTo` | src/network/pool.rs:277-298 | what is left after popping unusable entries off the end |
| `Pool.ConnectionPool.PutEntry` | src/network/pool.rs:77-107 | the pop loop computes the specified state |
| `Pool.ConnectionPool.MakeIdle` | src/network/pool.rs:210-224 | `idle` computes the specified state |
| `Pool.ConnectionPool.PopUsable` | src/network/pool.rs:273-305 | the pop loop finds the specified entry and leaves the specified list |
| `Pool.ConnectionPool.PollCheckout` | src/network/pool.rs:245-325 | `poll` computes the specified state and result |
| `Pool.ConnectionPool.Pooled` | src/network/pool.rs:109-121 | a new busy connection, not stored |
| `Pool.ConnectionPool.constructor` | src/network/pool.rs:42-51 | an empty, enabled pool |
| `MessageSet.MessageSetRoundTrip` | src/protocol/message.rs:147-274 | for all uncompressed messages the encoder accepts, parsing consumes every byte and returns the same offsets, keys and values with the timestamps the version carries, exactly when version and magic byte agree in sign, as 0 and 1 do, and every message's size field holds |
| `MessageSet.ChecksumVerifies` | src/protocol/message.rs:196-258 | the patched size and checksum verify exactly when the size fits 31 bits or wraps to a length with the same checksum; otherwise the message is incomplete or an error |
| `MessageSet.MessageRoundTrip` | src/protocol/message.rs:166-274 | one message followed by any bytes is read back, with the codec it was written with, exactly when its size field holds |
| `MessageSet.NumberedSetRoundTrip` | src/protocol/message.rs:147-274 | for all messages under any codecs a reader that does not unpack finds keys, values, codecs and timestamps, with compressed messages numbered in order and others at their offsets, exactly when version and magic byte agree in sign and every size field holds |
| `MessageSet.MessageExpands` | src/protocol/message.rs:217-274 | any message is read back, and unpacked if compressed, exactly when its size field holds and unpacking succeeds |
| `MessageSet.SetThenRest` | src/protocol/message.rs:206-237 | a set, compressed or not, in front of any bytes gives all it stands for, and parsing goes on with those bytes |
| `MessageSet.FrameExact` | src/protocol/message.rs:239-255 | a checksum is compared with that of the whole body, and a wrong one refused |
| `MessageSet.CorruptionEndsSet` | src/protocol/message.rs:206-255 | a message with a wrong checksum ends the set, which is kept |
| `MessageSet.EncodedSetSize` | src/protocol/message.rs:60-101 | the encoder writes exactly `size` bytes |
| `MessageSet.PutMessage` | src/protocol/message.rs:166-203 | writing with placeholders and patching gives the specified bytes behind the old contents, and fails exactly for an oversized key or value |
| `MessageSet.PutBody` | src/protocol/message.rs:173-194 | the part the checksum covers |
| `MessageSet.PatchFrame` | src/protocol/message.rs:196-200 | the two patches |
| `MessageSet.PutNext` | src/protocol/message.rs:152-161 | one turn of the loop, numbering compressed messages |
| `MessageSet.PutSet` | src/protocol/message.rs:147-164 | the whole set |
| `Builder.BatchBound` | src/protocol/message.rs:307-418 | after any pushes the counted bytes are those of the encoding, plain pushes are numbered 0, 1, 2, and an uncompressed batch of several messages fits its limit |
| `Builder.PushAtKeeps` | src/protocol/message.rs:374-418 | every push, refused or not, keeps the builder's invariant |
| `Builder.PushRefused` | src/protocol/message.rs:311-418 | a push is refused exactly for a negative timestamp or when 105 percent of the encoded size, or half that, and the new record exceed the limit |
| `Builder.FullExactly` | src/protocol/message.rs:307-323 | a builder is full exactly when it holds something and 105 percent of its encoded size, or half that, reaches the limit |
| `Builder.MessageSetBuilder.PushWithOffset` | src/protocol/message.rs:374-418 | computes the specified state and result |
| `Builder.MessageSetBuilder.PushNext` | src/protocol/message.rs:364-372 | the same at the next offset |
| `Builder.MessageSetBuilder.constructor` | src/protocol/message.rs:290-301 | an empty builder |
| `Producer.ProducerConservation` | src/producer/accumulator.rs:72-189 | for any interleaving each partition's drained batches followed by its queued ones hold exactly the accepted records in acceptance order |
| `Producer.AcceptedArrive` | src/producer/accumulator.rs:72-189 | a reader of the encoded message set of any drained uncompressed batch recovers the accepted records that went into it, in order, at offsets 0 to n - 1, exactly when it is empty or the layout agrees and every size field holds |
| `Producer.DrainedWereAccepted` | src/producer/accumulator.rs:175-189 | a drained batch holds accepted records in order, behind those of the batches drained before it |
| `Producer.RejectedPush` | src/producer/accumulator.rs:72-114 | a push is refused exactly for a negative timestamp and then adds and removes nothing |
| `Producer.CompletionOfSends` | src/producer/sender.rs:53-106 | over any replies no record of a drained batch completes unless one fails or names its partition; the first such completes each once: the k-th is told the failure, the error code of the first entry for the partition, or its base offset plus k |
| `Producer.VerdictIs` | src/producer/sender.rs:72-104 | a reply decides exactly when it is a failure or names the partition, by the first entry that does |
| `Producer.CompletedOnce` | src/producer/sender.rs:72-104 | the thunks are taken once, by the first attempt with a verdict, or never |
| `Producer.BatchVerdict` | src/producer/batch.rs:31-57 | what each record of a batch is told |
| `Producer.PushToBatchKeeps` | src/producer/batch.rs:96-119 | the i-th thunk stays paired with the i-th message at offset i |
| `Producer.PushRecordKeeps` | src/producer/accumulator.rs:72-114 | one record goes behind all queued for its partition; other partitions are untouched |
| `Producer.FlushKeeps` | src/producer/accumulator.rs:116-126 | a flush moves no record and puts an empty batch, with the last one's version, behind each queue that is not empty |
| `Producer.PushOpens` | src/producer/accumulator.rs:72-114 | a record goes into the last batch or alone into a new one with the version given and the accumulator's limits; a new one exactly when the last has no room or is missing, full exactly when the record filled it |
| `Producer.BatchSettings` | src/producer/accumulator.rs:72-126 | in every run each batch has the accumulator's compression and limit and a version given with a push for its partition |
| `Producer.ReadyExactly` | src/producer/accumulator.rs:175-189 | a queue is ready exactly when it is not empty and the drain is forced, its last batch is full or has existed for the linger time |
| `Producer.DrainKeeps` | src/producer/accumulator.rs:175-189 | a drain takes the oldest batch |
| `Producer.FindReply` | src/producer/sender.rs:73-77 | the first entry for the partition, if there is one |
| `Producer.ProducerBatch.PushRecord` | src/producer/batch.rs:96-119 | computes the specified batch |
| `Producer.ProducerBatch.constructor` | src/producer/batch.rs:77-86 | an empty batch at relative offset 0 |
| `Producer.RecordAccumulator.Push` | src/producer/accumulator.rs:72-114 | computes the specified queues and result |
| `Producer.RecordAccumulator.FlushAll` | src/producer/accumulator.rs:116-126 | the loop over all queues |
| `Producer.RecordAccumulator.PollBatches` | src/producer/accumulator.rs:175-189 | takes the first batch of some ready queue, and nothing exactly when none is ready |
| `Producer.Sender.SendBatch` | src/producer/sender.rs:53-106 | the completion loops |
| `Producer.Sender.constructor` | src/producer/sender.rs:32-51 | the thunks are there to be taken |
| `Requests.SizingAgrees` | src/protocol/produce.rs:45-82 | for every modelled request and version the encoding has exactly the size the codec reserves |
| `Requests.RequestReadable` | src/protocol/offset_commit.rs:74-118 | a reader that knows only the kind and the version recovers every field in order and finds the end |
| `Requests.RequestLayout` | src/protocol/header.rs:28-35 | for every modelled request and version the bytes are api key, version, correlation id and client id, then the body's parts in their order |
| `Requests.FetchLayout` | src/protocol/fetch.rs:75-97 | the fetch body byte by byte |
| `Requests.CommitLayout` | src/protocol/offset_commit.rs:91-118 | the offset-commit body byte by byte, over its versions |
| `Requests.JoinLayout` | src/protocol/group.rs:250-268 | the join body byte by byte |
| `Requests.FetchFieldsSize` | src/protocol/fetch.rs:62-97 | the fetch body, with its field of versions above 2 |
| `Requests.ListTopicsSize` | src/protocol/list_offset.rs:67-100 | list-offset partitions, with their field of version 0 |
| `Requests.CommitFieldsSize` | src/protocol/offset_commit.rs:74-118 | the offset-commit body over its versions |
| `Requests.JoinFieldsSize` | src/protocol/group.rs:236-268 | the join body, with its field of versions above 0 |
| `Requests.EntriesSize` | src/protocol/group.rs:303-326 | the member assignments of a sync |
| `Requests.PutPartition` | src/protocol/produce.rs:70-80 | the patched length of a message set is its length |
| `Requests.PutPartitions` | src/protocol/produce.rs:69-81 | all partitions of a topic |
| `Requests.PutTopic` | src/protocol/produce.rs:67-81 | one topic |
| `Requests.PutTopics` | src/protocol/produce.rs:67-81 | all topics |
| `Requests.PutProduce` | src/protocol/produce.rs:59-82 | the produce body behind the old contents, or failure exactly when it does not fit |
| `Requests.PutRequest` | src/network/request.rs:414-433 | any request's header and body bytes behind the old contents, or failure exactly when it does not fit |
| `Layout.AllRoundTrip` | src/protocol/encode.rs:21-79 | fields written by the `put_*` calls are recovered from their types |
| `Layout.EncodedAllSize` | src/protocol/encode.rs:21-79 | their length is the sum of their sizes |
| `Layout.PutValue` | src/protocol/encode.rs:21-79 | one field, refused exactly when too long |
| `Layout.PutArray` | src/protocol/encode.rs:62-79 | the count and every item |
| `Layout.PutAll` | src/protocol/encode.rs:21-79 | fields in a row |
| `Wire.BlobRoundTrip` | src/protocol/parse.rs:273-281 | a byte string, null or not, is read back |
| `Wire.ByteBuf.PutStr` | src/protocol/encode.rs:22-40 | appends the length and the string, refused exactly beyond 32767 bytes |
| `Wire.ByteBuf.PutBytes` | src/protocol/encode.rs:42-60 | appends the length and the bytes, refused exactly beyond 2^31 - 1 bytes |
| `Codec.ChunkIndependence` | src/network/codec.rs:71-97 | every split of a stream gives what one buffer gives, exactly when no whole frame is left behind a stalled one |
| `Codec.FramesIndependent` | src/network/codec.rs:71-97 | for well-formed frames every split of their stream gives what one buffer gives, exactly when no frame behind answered ones and before another is too short for the parser of its request |
| `Codec.StallHappens` | src/protocol/group.rs:426-432 | a heartbeat response that ends after its correlation id holds up the one behind it |
| `Codec.FramesArePaired` | src/network/codec.rs:71-97 | from well-formed frames the k-th response is the k-th frame's, parsed for the k-th request, whose correlation id it carries; one for each frame unless something fails or stalls |
| `Codec.PairingOverRuns` | src/network/codec.rs:32-97 | over any interleaving of sends, arrivals and decodes responses answer requests in order with matching correlation ids |
| `Codec.DriveExtends` | src/network/codec.rs:71-97 | decoding on more input is decoding first and adding it then, unless the first stalled |
| `Codec.KafkaCodec.EncodeRequest` | src/network/codec.rs:32-64 | a frame of the request's header and body bytes, with the announced size as its patched length, and the request remembered; on failure the request is not remembered and a partial frame stays |
| `Codec.KafkaCodec.DecodeResponse` | src/network/codec.rs:71-97 | one decode computes the specified buffer, queue and result |
| `Lz4.Lz4RoundTrip` | src/compression/lz4.rs:100-375 | for any writes, checksum flags and block size, any positive buffer sizes and any library faithful up to the largest block, the reader returns exactly the bytes written and stops at the end of the frame |
| `Lz4.FaithfulExists` | src/compression/lz4.rs:14-23 | for every limit below 2^31 there is a library as the round trip asks for |
| `Lz4.HeaderRoundTrip` | src/compression/lz4.rs:84-152 | a header is accepted, with its frame, exactly when the checksum is not verified or agrees |
| `Lz4.MagicNeeded` | src/compression/lz4.rs:100-152 | no header is accepted without the magic number |
| `Lz4.AllBlocksCover` | src/compression/lz4.rs:355-375 | no block is empty or over the maximum and together they are the data |
| `Lz4.ReadStep` | src/compression/lz4.rs:258-283 | a read gives the next bytes, and none only at the end |
| `Lz4.BlockRead` | src/compression/lz4.rs:154-220 | a written block is read back, with or without its checksum |
| `Lz4.BlockExact` | src/compression/lz4.rs:154-220 | any block, compressed or stored, gives its data, and is refused exactly for a wrong checksum or when it does not uncompress |
| `Lz4.FrameEnds` | src/compression/lz4.rs:346-351 | a frame ends with four zeros and, if flagged, the checksum of all that was written |
| `Lz4.EndRead` | src/compression/lz4.rs:161-165 | the end mark ends the data, with or without a content checksum |
| `Lz4.NewFrame` | src/compression/lz4.rs:299-321 | the flag bits read back as they were set, version 1 and independent blocks, and block size n stands for 4 to the power of 4 + n bytes |
| `Lz4.Lz4Writer.WriteBlock` | src/compression/lz4.rs:330-344 | the gathered block goes out and nothing is kept |
| `Lz4.Lz4Writer.Write` | src/compression/lz4.rs:355-375 | the recursion ends, writes the specified blocks and keeps nothing back |
| `Lz4.Lz4Writer.Flush` | src/compression/lz4.rs:377-380 | there is nothing to flush |
| `Lz4.Lz4Writer.Close` | src/compression/lz4.rs:346-351 | the end mark and the content checksum |
| `Lz4.Lz4Writer.constructor` | src/compression/lz4.rs:292-328 | writes the header |
| `Lz4.CompressWrites` | src/compression/lz4.rs:292-375 | a sequence of writes and a close gives the specified frame |
| `Lz4.Lz4Reader.ReadInto` | src/compression/lz4.rs:258-283 | one read computes the specified state and data |
| `Snappy.ReadersAgree` | src/compression/snappy.rs:52-186 | on every valid stream reading at once and to the end give the content; reading piecewise gives it exactly when no empty chunk stands before one that is not |
| `Snappy.EmptyChunkHides` | src/compression/snappy.rs:130-142 | a chunk of nothing in front of another hides it from the piecewise reader |
| `Snappy.ReadToEndFromAnywhere` | src/compression/snappy.rs:163-186 | after any reads, reading to the end appends exactly what was missing |
| `Snappy.ZeroChunk` | src/compression/snappy.rs:144-155 | a chunk of length zero is accepted at once and refused by the reader |
| `Snappy.HeaderIsValid` | src/compression/snappy.rs:72-93 | the header is accepted and taken off |
| `Snappy.HeaderExactly` | src/compression/snappy.rs:72-93 | a stream is accepted exactly when it begins with the header |
| `Snappy.FramedExactly` | src/compression/snappy.rs:52-62 | at once, chunks are accepted exactly when each decompresses |
| `Snappy.RestExactly` | src/compression/snappy.rs:163-186 | to the end, exactly when each also is not empty |
| `Snappy.UncompressFramed` | src/compression/snappy.rs:52-62 | header and chunks, appended to what was there |
| `Snappy.UncompressChunks` | src/compression/snappy.rs:55-60 | the index loop computes the specified content or fails with it |
| `Snappy.SnappyReader.Advance` | src/compression/snappy.rs:144-161 | the next chunk |
| `Snappy.SnappyReader.ReadInto` | src/compression/snappy.rs:130-142 | one read computes the specified state and bytes |
| `Snappy.SnappyReader.ReadAll` | src/compression/snappy.rs:163-186 | the loop appends the unread part and the rest |
| `Varint.VarintRoundTrip` | src/protocol/schema.rs:133-255 | every 32- and 64-bit value followed by any bytes is read back, nothing more is consumed, 1 to 5 or 1 to 10 bytes are used, and the decoder's refusal never fires |
| `Varint.RefusedExactly` | src/protocol/schema.rs:167-192 | a number is refused exactly when none of the first five or ten bytes ends it |
| `Varint.ZigZagOrder` | src/protocol/schema.rs:139 | the bit operations interleave positive and negative numbers |
| `Varint.Serialize` | src/protocol/schema.rs:138-146 | the encoding loop |
| `Varint.Deserialize` | src/protocol/schema.rs:167-192 | the decoding loop |
| `Delivery.DeliveredInOrder` | src/consumer/subscribed.rs:206-361 | in any run with an honest broker, over any quiet stretch, with the partition not disrupted since the start or since nothing was outstanding for it, its records are delivered once and in order from its position, and its position, which a commit sends, advances by their number |
| `Delivery.DeliveryExact` | src/consumer/subscribed.rs:206-361 | in every state of every such run delivery continues from the position, whatever spares the partition, exactly when what is requested or queued first is at the position and no update under way has asked for its offset |
| `Delivery.AlignedUnlessDisrupted` | src/consumer/subscribed.rs:287-361 | every step keeps what is requested and queued in line with the position, except exactly a seek elsewhere or the return of a lost partition while records are outstanding |
| `Delivery.Request` | src/consumer/fetcher.rs:135-154 | a fetch asks for exactly the fetchable partitions, each of which has a position |
| `Delivery.OfResponse` | src/consumer/subscribed.rs:229-262 | an honest response queues, for each partition, exactly its records, consecutive from the offset asked for |
| `Delivery.FetchOutcome` | src/consumer/subscribed.rs:314-348 | after a response the loop pauses exactly when the fetch failed or brought nothing, and otherwise hands out all its records |
| `Delivery.HandlingFails` | src/consumer/fetcher.rs:163-193 | a fetch fails exactly when a part of a fetchable partition has an error that is not about its offset |
| `Delivery.PartHandled` | src/consumer/fetcher.rs:163-193 | each part before that counts only for a fetchable partition that stands where the fetch began: it brings the watermark, or asks for a reset if out of range |
| `Delivery.HandlingKeepsPositions` | src/consumer/fetcher.rs:163-193 | handling a response moves no position |
| `Delivery.QuietFollows` | src/consumer/subscribed.rs:287-361 | every quiet step continues the delivery of a partition from where it stood |
| `Delivery.WholeUpdate` | src/consumer/fetcher.rs:48-132 | a whole update asks for the offset exactly of what is to be reset to an end, and leaves a position exactly when there is nothing to reset and the commit is there, or the reset gives that offset or none |
| `Delivery.SeekSurvivesUpdate` | src/consumer/fetcher.rs:48-132 | after a seek and any quiet steps the partition stands at the offset or behind the last record delivered since, and an update leaves it there exactly when the commit is there too or, with nothing committed or the offset out of range meanwhile, the broker names that offset or none |
| `Delivery.SeekDuringUpdate` | src/consumer/fetcher.rs:95-132 | a seek made while an update is under way survives its end exactly when no other offset comes for the partition, which was asked for before the seek; such an offset cancels a seek to an end, which otherwise waits on exactly when the partition is not fetchable |
| `Delivery.SeekWhileJoining` | src/consumer/fetcher.rs:109-120 | after joining, a seek made once the offset was asked for is lost, and the fetch asks for the broker's offset |
| `Delivery.SeekHonoured` | src/consumer/subscribed.rs:238-243 | in every state of every run with an honest broker, after a seek the partition delivers from that offset on, until an update begins, exactly when no other offset is requested or queued first and no update under way has asked for its offset |
| `Delivery.ResetHonoured` | src/consumer/subscriptions.rs:115-130 | a seek to the beginning or the end waits until an update begins, exactly when no record can be delivered before and no update under way ends with an offset for the partition |
| `Delivery.ResetTakesEffect` | src/consumer/fetcher.rs:48-132 | then the update asks the broker for that end and its answer is the position |
| `Delivery.StaleRecordUndoesSeek` | src/consumer/subscribed.rs:240-243 | a record fetched before a seek is delivered and moves the position behind itself |
| `Delivery.PollIsARun` | src/consumer/subscribed.rs:287-361 | a poll is a run of the loop's steps that takes the ready completions in order; it gives up only outside the delivery of records and when none is ready, and otherwise returns the first queued record, delivered by its last step and no other |
| `Delivery.QueuedIsReturned` | src/consumer/subscribed.rs:350-353 | a queued record is returned at once |
| `Delivery.SubscribedTopics.HandleFetched` | src/consumer/fetcher.rs:163-193 | the loop over the response computes the specified states |
| `Delivery.SubscribedTopics.Complete` | src/consumer/subscribed.rs:287-350 | each completed future leads to the specified state |
| `Delivery.SubscribedTopics.PollNext` | src/consumer/subscribed.rs:287-361 | the poll loop computes the specified state and result and ends |
| `Delivery.SubscribedTopics.constructor` | src/consumer/subscribed.rs:131-156 | joining first with a coordinator, fetching without |

## Left out

- Sockets, TLS, DNS, timers, metrics, logging, configuration and builders: nothing to prove.
- `StickyAssignor`, which the source leaves unimplemented, and `partitions_for_broker`.
- Metadata, offset-fetch, heartbeat, leave, list and describe requests, and all response parsers but the heartbeat's: the same pattern with no version branching.
- The compressors themselves, and the wrapping of a batch into one compressed message: unpacking is a parameter of the message-set results, and `Producer.AcceptedArrive` speaks of uncompressed batches.
- The floating-point estimate of a batch's size: 105 percent in whole numbers, halved for a compressed batch.
- Overflow of 64-bit offsets, timestamps and correlation ids.
- Panics: a message or response frame too short for its checksum or correlation id, a negative frame length and a snappy chunk that runs past the stream end in an error or a wait here and in a panic in the source; attribute bits of an unknown compression codec, undefined behaviour in the source, end in an error.
- Batches inside the accumulator are values in its map, so sharing of a batch between the map and a caller is not modelled; `ProducerBatch` itself is an object.
- A batch whose `build` fails is dropped with its thunks, which are then cancelled; this and the interceptors are not modelled.
- `Pooled::busy` and `Pooled::close`, which nothing calls, and a pool dropped while checkouts wait.
- Short reads of the LZ4 reader's source: it is a byte string that gives all it has.
- The LZ4 content checksum, which the reader skips without comparing, and the byte counts returned by `write_block` and `write_end_mark`.
- The first assignment made without a group, and the errors a poll passes on while it stays where it is, such as a reset of a partition that was lost meanwhile.
- Coordinator.ConsumerCoordinator.RunAssignor: an assignor supplied by the user for a custom strategy is not run, because nothing is known of it.
- Coordinator.ConsumerCoordinator.PerformAssignment: likewise fails for a custom strategy.
- Coordinator.ConsumerCoordinator.Leaved: the request that leaves the group on the broker is not modelled, because only its effect on the state matters here.
- Rebalance.RebalanceSafety: partition ids in the leader's metadata are assumed to fit 32 bits, because the wire carries them so.
