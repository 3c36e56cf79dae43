# In-process network shuffle of Flink, modelled in Dafny

This project models the core of the data exchange between Flink tasks on one machine:

- a producing task writes its output into a **result partition**, split into one subpartition
  per consumer;
- consumers read through **subpartition views**, pipelined or spillable;
- on the consuming side, a **local input channel** or the network server's
  **sequence-numbering reader** counts the buffers a view announces and takes them one at a time;
- the **buffer** contract governs every buffer that travels this way: its reader/writer indices
  and its reference count;
- the **recoverable output stream** to a Hadoop file system, and its committer, stage a part file
  and publish it by a rename.

Each Java class becomes an immutable datatype. Each guarded method becomes one pure transition
function. A transition returns the new state, the calls it makes on its collaborators (as
signals or effects, in order) and an `Outcomes.Result`. A Java exception becomes an `Err`
result, and the state returned with it keeps every change made before the throw. Collaborators
whose code is not part of this model are inputs to the transitions. These are:

- the subpartition's answer to `add` and the buffers freed by its `releaseMemory`;
- the view's answer to `getNextBuffer`;
- the partition manager's answer to a view request, including any exception it throws;
- whether the backoff still allows a retry;
- the outcome of the file system's `rename`.

Properties that span several calls are stated over `Run` functions, which apply a sequence of
calls one at a time.

| file | module | models |
|---|---|---|
| outcomes.dfy | `Outcomes` | errors (the Java exceptions), `Option`, `Result`, counting in a sequence |
| buffer.dfy | `Buffers` | `Buffer`: index region, readable slice, event tag, retain/recycle |
| subpartition.dfy | `Subpartitions` | the subpartition classes, as an abstract queue |
| result_partition.dfy | `ResultPartitions` | `ResultPartition`, one transition per method |
| partition_lifecycle.dfy | `PartitionLifecycle` | runs of partition calls: latches and counters over any call sequence |
| buffer_oriented_partition.dfy | `BufferOrientedPartitions` | unicast/broadcast routing of record bytes into buffer builders |
| pipelined_view.dfy | `PipelinedViews` | `PipelinedSubpartitionView` |
| spillable_view.dfy | `SpillableViews` | `SpillableSubpartitionView` and its memory → spill transition |
| availability.dfy | `Availability` | the coalescing buffer counter shared by both readers |
| local_input_channel.dfy | `LocalInputChannels` | `LocalInputChannel` |
| sequence_numbering_reader.dfy | `SequenceNumberingReaders` | `SequenceNumberingViewReader` |
| hadoop_committer.dfy | `HadoopCommitters` | `HadoopRecoverableFsDataOutputStream` and `HadoopFsCommitter` |

A blocking partition never announces itself to its consumers through
`notifyPipelinedConsumers`. That method acts only on pipelined partitions
(ResultPartition.java:476-482), and the model follows the code. Blocking consumers are
deployed by the scheduler once the partition is finished, and that path is not part of this
model.

## Model

| member | source | states |
|---|---|---|
| Buffers.Fresh | flink-runtime/src/main/java/org/apache/flink/runtime/io/network/buffer/Buffer.java:29-38 | a new buffer satisfies the index-region invariant, is not recycled, is a data buffer and has nothing readable |
| Buffers.TagAsEvent | flink-runtime/src/main/java/org/apache/flink/runtime/io/network/buffer/Buffer.java:47-57 | after tagging, the buffer is an event (`isBuffer` false); contents, indices and reference count are unchanged |
| Buffers.SetReaderIndex | flink-runtime/src/main/java/org/apache/flink/runtime/io/network/buffer/Buffer.java:100-113 | accepted exactly for 0 ≤ index ≤ writerIndex; keeps the invariant and changes nothing else |
| Buffers.SetWriterIndex | flink-runtime/src/main/java/org/apache/flink/runtime/io/network/buffer/Buffer.java:115-131 | accepted exactly for readerIndex ≤ index ≤ size; keeps the invariant and changes nothing else |
| Buffers.Readable | flink-runtime/src/main/java/org/apache/flink/runtime/io/network/buffer/Buffer.java:133-141 | the readable slice holds exactly the bytes at [readerIndex, writerIndex) |
| Buffers.Write | flink-runtime/src/main/java/org/apache/flink/runtime/io/network/buffer/Buffer.java:115-131 | a payload is accepted iff it fits behind the writer index; the readable bytes become the old readable bytes followed by the payload, and the reference count and tag are unchanged |
| Buffers.Retain | flink-runtime/src/main/java/org/apache/flink/runtime/io/network/buffer/Buffer.java:81-88 | refused on a recycled buffer; otherwise the same buffer with one more reference |
| Buffers.Recycle | flink-runtime/src/main/java/org/apache/flink/runtime/io/network/buffer/Buffer.java:66-79 | drops one reference; the memory goes back to its owner exactly when the count reaches zero |
| Buffers.RetainThenRecycle | flink-runtime/src/main/java/org/apache/flink/runtime/io/network/buffer/Buffer.java:66-88 | a retain followed by a recycle gives back the original buffer and returns nothing to the pool |
| Buffers.RecycleExactlyOnce | flink-runtime/src/main/java/org/apache/flink/runtime/io/network/buffer/Buffer.java:66-79 | with k references, k recycles succeed and only the last returns the memory; one more fails |
| Buffers.WriteThenReadable | flink-runtime/src/main/java/org/apache/flink/runtime/io/network/buffer/Buffer.java:100-141 | writing a payload into a fully read buffer makes exactly that payload readable |
| Buffers.TagAsEventCommutes | flink-runtime/src/main/java/org/apache/flink/runtime/io/network/buffer/Buffer.java:47-88 | tagging as an event keeps validity and the readable bytes, and commutes with retain and recycle |
| ResultPartitions.Create | flink-runtime/src/main/java/org/apache/flink/runtime/io/network/partition/ResultPartition.java:126-181 | a negative count fails; otherwise one fresh subpartition per index, pending references equal to the count, nothing finished, released or notified |
| ResultPartitions.Pin | flink-runtime/src/main/java/org/apache/flink/runtime/io/network/partition/ResultPartition.java:427-440 | adds the subpartition count to a non-negative reference count and fails with "Released." otherwise |
| ResultPartitions.RegisterBufferPool | flink-runtime/src/main/java/org/apache/flink/runtime/io/network/partition/ResultPartition.java:191-204 | succeeds iff the pool has at least one segment per subpartition and none is registered, each failure with the source's "Bug in result partition setup logic: " message; the partition owns the pool iff it has no back-pressure; nothing else changes |
| ResultPartitions.CheckInProduceState | flink-runtime/src/main/java/org/apache/flink/runtime/io/network/partition/ResultPartition.java:469-471 | succeeds iff the partition is not finished |
| ResultPartitions.NotifyPipelinedConsumers | flink-runtime/src/main/java/org/apache/flink/runtime/io/network/partition/ResultPartition.java:476-482 | notifies only a pipelined partition that asks for it and has not notified yet, and then sets the latch |
| ResultPartitions.Add | flink-runtime/src/main/java/org/apache/flink/runtime/io/network/partition/ResultPartition.java:246-270 | after finish, or for a bad index, the buffer is recycled and the call fails; otherwise counters always grow, an accepted buffer is queued and notifies, setting the one-shot latch, a refused one is recycled, and other subpartitions are untouched |
| ResultPartitions.AddBufferIfCapacityAvailable | flink-runtime/src/main/java/org/apache/flink/runtime/io/network/partition/ResultPartition.java:283-301 | fails after finish or for a bad index; otherwise returns whether the buffer was taken, and counts, queues and notifies, setting the one-shot latch, only then |
| ResultPartitions.Finish | flink-runtime/src/main/java/org/apache/flink/runtime/io/network/partition/ResultPartition.java:310-331 | fails on a finished partition; otherwise finishes every subpartition, sets the flag, notifies pending consumers and sets the latch iff it notified; nothing else changes |
| ResultPartitions.ReleaseAttempts | flink-runtime/src/main/java/org/apache/flink/runtime/io/network/partition/ResultPartition.java:346-361 | one release attempt per subpartition, in index order |
| ResultPartitions.Release | flink-runtime/src/main/java/org/apache/flink/runtime/io/network/partition/ResultPartition.java:340-362 | a second release changes nothing; the first sets the flag, records a given cause, and releases every subpartition; nothing else changes |
| ResultPartitions.CreateSubpartitionView | flink-runtime/src/main/java/org/apache/flink/runtime/io/network/partition/ResultPartition.java:373-386 | succeeds iff references are pending and the index is in range; otherwise fails with "Partition released.", "Partition not pinned." or "Subpartition not found.", checked in that order |
| ResultPartitions.OnConsumedSubpartition | flink-runtime/src/main/java/org/apache/flink/runtime/io/network/partition/ResultPartition.java:445-461 | a no-op once released; otherwise decrements, notifies the manager exactly at zero and fails below zero |
| ResultPartitions.ReleaseMemory | flink-runtime/src/main/java/org/apache/flink/runtime/io/network/partition/ResultPartition.java:399-410 | rejects a non-positive request with an argument error that has no message; otherwise visits subpartitions in order and stops at the first one after which the freed total reaches the request |
| PartitionLifecycle.Apply | flink-runtime/src/main/java/org/apache/flink/runtime/io/network/partition/ResultPartition.java:246-461 | no call changes the layout or kind, undoes finish or release, or emits a notification its latch does not allow; only a pin re-arms the manager notification; only pins and consumption notices change the reference count |
| PartitionLifecycle.CountReleaseAttempts | flink-runtime/src/main/java/org/apache/flink/runtime/io/network/partition/ResultPartition.java:346-361 | a release attempts every subpartition exactly once |
| PartitionLifecycle.ApplyReleaseAttempts | flink-runtime/src/main/java/org/apache/flink/runtime/io/network/partition/ResultPartition.java:340-362 | one call attempts to release subpartition i once if it is the first release, otherwise not |
| PartitionLifecycle.ConsumableNotifiedAtMostOnce | flink-runtime/src/main/java/org/apache/flink/runtime/io/network/partition/ResultPartition.java:476-482 | over any call sequence consumers are notified at most once, and never for a blocking partition |
| PartitionLifecycle.ManagerNotifiedAtMostOnce | flink-runtime/src/main/java/org/apache/flink/runtime/io/network/partition/ResultPartition.java:445-461 | over any call sequence the manager hears of consumption at most once per pin, so at most once without a new pin, and never when no reference was pending and nothing pinned |
| PartitionLifecycle.FinishIsFinal | flink-runtime/src/main/java/org/apache/flink/runtime/io/network/partition/ResultPartition.java:310-331 | a finished partition stays finished whatever follows |
| PartitionLifecycle.NoProduceAfterFinish | flink-runtime/src/main/java/org/apache/flink/runtime/io/network/partition/ResultPartition.java:246-326 | after a successful finish, every later add, conditional add or finish fails |
| PartitionLifecycle.ReleaseAttemptedOncePerSubpartition | flink-runtime/src/main/java/org/apache/flink/runtime/io/network/partition/ResultPartition.java:340-362 | over any call sequence each subpartition gets exactly one release attempt if some release ran on a live partition, else none; the first cause stays |
| PartitionLifecycle.ConsumeNotices | flink-runtime/src/main/java/org/apache/flink/runtime/io/network/partition/ResultPartition.java:445-461 | k consumption notices lower the count by k and notify the manager once iff they bring it to zero |
| PartitionLifecycle.EverySubpartitionConsumedOnce | flink-runtime/src/main/java/org/apache/flink/runtime/io/network/partition/ResultPartition.java:177-178 | after one notice per subpartition of a new partition the count is zero and the manager was told exactly once |
| PartitionLifecycle.PinThenConsumeAll | flink-runtime/src/main/java/org/apache/flink/runtime/io/network/partition/ResultPartition.java:373-461 | an unpinned partition refuses views with "Partition not pinned."; a pin makes every view available; one notice per subpartition brings the count back to zero, tells the manager exactly once, and views are refused again |
| BufferOrientedPartitions.ModesExclusive | flink-runtime/src/main/java/org/apache/flink/runtime/io/network/partition/BufferOrientedResultPartition.java:210-218 | while a broadcast builder is open, no subpartition has a unicast builder open |
| BufferOrientedPartitions.Create | flink-runtime/src/main/java/org/apache/flink/runtime/io/network/partition/BufferOrientedResultPartition.java:59-85 | a new router satisfies the routing invariant and every subpartition's stream is empty |
| BufferOrientedPartitions.NewUnicastBuilder | flink-runtime/src/main/java/org/apache/flink/runtime/io/network/partition/BufferOrientedResultPartition.java:149-157 | fails after finish; otherwise closes the broadcast builder and registers one empty builder with the target only, leaving every stream's contents unchanged |
| BufferOrientedPartitions.NewBroadcastBuilder | flink-runtime/src/main/java/org/apache/flink/runtime/io/network/partition/BufferOrientedResultPartition.java:168-182 | fails after finish; otherwise closes every unicast builder and registers one empty builder with every subpartition, leaving every stream's contents unchanged |
| BufferOrientedPartitions.UnicastAppend | flink-runtime/src/main/java/org/apache/flink/runtime/io/network/partition/BufferOrientedResultPartition.java:100-110 | appending to the target's open builder extends exactly the target's stream by those bytes and closes the builder when full |
| BufferOrientedPartitions.BroadcastAppend | flink-runtime/src/main/java/org/apache/flink/runtime/io/network/partition/BufferOrientedResultPartition.java:112-122 | appending to the broadcast builder extends every subpartition's stream by the same bytes |
| BufferOrientedPartitions.UnicastChunk | flink-runtime/src/main/java/org/apache/flink/runtime/io/network/partition/BufferOrientedResultPartition.java:100-110 | one loop iteration: reuses an open builder or gets a new one, writes as much as fits into the target's stream only, and closes a full builder |
| BufferOrientedPartitions.WriteRecord | flink-runtime/src/main/java/org/apache/flink/runtime/io/network/partition/BufferOrientedResultPartition.java:100-110 | the target's stream grows by exactly the record's bytes written, in order; other streams are unchanged; it fails only after finish when a new builder is needed |
| BufferOrientedPartitions.BroadcastChunk | flink-runtime/src/main/java/org/apache/flink/runtime/io/network/partition/BufferOrientedResultPartition.java:112-122 | one loop iteration: writes as much as fits into the shared builder, extending every stream alike |
| BufferOrientedPartitions.BroadcastRecord | flink-runtime/src/main/java/org/apache/flink/runtime/io/network/partition/BufferOrientedResultPartition.java:112-122 | every subpartition's stream grows by the same record bytes, in order; it fails only after finish when a new builder is needed |
| BufferOrientedPartitions.BroadcastEvent | flink-runtime/src/main/java/org/apache/flink/runtime/io/network/partition/BufferOrientedResultPartition.java:124-136 | corrected: closes every builder, including the broadcast one, and appends the event to every stream |
| BufferOrientedPartitions.BroadcastEventAsWritten | flink-runtime/src/main/java/org/apache/flink/runtime/io/network/partition/BufferOrientedResultPartition.java:124-136 | as written: closes every unicast builder and appends the event everywhere, but keeps the broadcast builder open |
| BufferOrientedPartitions.BroadcastEventAsWrittenReorders | flink-runtime/src/main/java/org/apache/flink/runtime/io/network/partition/BufferOrientedResultPartition.java:112-136 | as written, bytes broadcast after an event land in front of it in every stream |
| BufferOrientedPartitions.BroadcastEventAsWrittenCounterexample | flink-runtime/src/main/java/org/apache/flink/runtime/io/network/partition/BufferOrientedResultPartition.java:124-136 | a concrete router where byte 2, broadcast after event 7, is read before it |
| BufferOrientedPartitions.BroadcastEventKeepsOrder | flink-runtime/src/main/java/org/apache/flink/runtime/io/network/partition/BufferOrientedResultPartition.java:112-136 | with the correction, bytes broadcast after an event follow it in every stream |
| PipelinedViews.Create | flink-runtime/src/main/java/org/apache/flink/runtime/io/network/partition/PipelinedSubpartitionView.java:41-45 | a new view over its parent is not released |
| PipelinedViews.GetNextBuffer | flink-runtime/src/main/java/org/apache/flink/runtime/io/network/partition/PipelinedSubpartitionView.java:47-50 | the parent's poll: the head of its queue if any, removed from it |
| PipelinedViews.ReleaseAllResources | flink-runtime/src/main/java/org/apache/flink/runtime/io/network/partition/PipelinedSubpartitionView.java:62-69 | the first release marks the view released and reports consumption to the parent; later ones do nothing |
| PipelinedViews.NotifySubpartitionConsumed | flink-runtime/src/main/java/org/apache/flink/runtime/io/network/partition/PipelinedSubpartitionView.java:57-60 | behaves exactly as a release |
| PipelinedViews.Apply | flink-runtime/src/main/java/org/apache/flink/runtime/io/network/partition/PipelinedSubpartitionView.java:47-74 | the view is released after a call iff it was before or the call releases it; availability is forwarded unchanged |
| PipelinedViews.ConsumedReportedOnce | flink-runtime/src/main/java/org/apache/flink/runtime/io/network/partition/PipelinedSubpartitionView.java:57-74 | over any calls the parent hears of consumption exactly once iff some release or notice reached a live view, and released stays true |
| PipelinedViews.DeliversInOrder | flink-runtime/src/main/java/org/apache/flink/runtime/io/network/partition/PipelinedSubpartitionView.java:47-50 | buffers returned, followed by those still queued, are the initial queue followed by what the producer appended |
| SpillableViews.Create | flink-runtime/src/main/java/org/apache/flink/runtime/io/network/partition/SpillableSubpartitionView.java:52-72 | the head of the queue becomes the next buffer, and the listener hears of one buffer iff there was a head |
| SpillableViews.Recycles | flink-runtime/src/main/java/org/apache/flink/runtime/io/network/partition/SpillableSubpartitionView.java:82-90 | one recycle per spilled buffer, in queue order |
| SpillableViews.ReleaseMemoryAsWritten | flink-runtime/src/main/java/org/apache/flink/runtime/io/network/partition/SpillableSubpartitionView.java:74-102 | a no-op returning 0 when already spilled or nothing is in memory; otherwise moves the queue behind the head, in order, to the spill file, recycles each buffer and returns how many |
| SpillableViews.ReleaseMemory | flink-runtime/src/main/java/org/apache/flink/runtime/io/network/partition/SpillableSubpartitionView.java:74-102 | corrected: also a no-op on a released view, otherwise as written |
| SpillableViews.ReleaseMemoryIn | flink-runtime/src/main/java/org/apache/flink/runtime/io/network/partition/SpillableSubpartitionView.java:74-102 | the release a run uses, as written or corrected: it keeps the release flags, the pending buffers and the layout, and does nothing once spilled |
| SpillableViews.GetNextBuffer | flink-runtime/src/main/java/org/apache/flink/runtime/io/network/partition/SpillableSubpartitionView.java:104-127 | nothing after release; else the head, advancing from the queue and announcing a new head once; else the spill file's next buffer; else an error |
| SpillableViews.ReleaseAllResources | flink-runtime/src/main/java/org/apache/flink/runtime/io/network/partition/SpillableSubpartitionView.java:134-142 | only the first call acts, and it releases the spilled view if there is one |
| SpillableViews.NotifySubpartitionConsumed | flink-runtime/src/main/java/org/apache/flink/runtime/io/network/partition/SpillableSubpartitionView.java:144-152 | forwards to the spilled view if there is one, else to the parent |
| SpillableViews.Apply | flink-runtime/src/main/java/org/apache/flink/runtime/io/network/partition/SpillableSubpartitionView.java:74-152 | every call keeps the layout invariant and loses no buffer: what it delivers followed by what is pending is what was pending; this holds with the class's releaseMemory and with the corrected one |
| SpillableViews.DeliversOriginalOrder | flink-runtime/src/main/java/org/apache/flink/runtime/io/network/partition/SpillableSubpartitionView.java:74-127 | over any calls, spills included, the delivered buffers followed by the pending ones are the original pending sequence, with the class's releaseMemory and with the corrected one |
| SpillableViews.CreatedViewDeliversQueue | flink-runtime/src/main/java/org/apache/flink/runtime/io/network/partition/SpillableSubpartitionView.java:52-127 | a view read to the end delivers exactly its subpartition's queue, in order, spilled or not, with the class's releaseMemory and with the corrected one |
| SpillableViews.SpillIsOneWay | flink-runtime/src/main/java/org/apache/flink/runtime/io/network/partition/SpillableSubpartitionView.java:74-102 | once spilled, the view stays spilled and every later release of memory, as written or corrected, frees nothing; over runs of either version |
| SpillableViews.SpilledReleasedAtMostOnce | flink-runtime/src/main/java/org/apache/flink/runtime/io/network/partition/SpillableSubpartitionView.java:134-142 | over any calls, with either releaseMemory, the view is released iff it was or some call released it, and the spilled view is released at most once, only by the first release |
| SpillableViews.ReleaseMemoryAsWrittenRevivesView | flink-runtime/src/main/java/org/apache/flink/runtime/io/network/partition/SpillableSubpartitionView.java:74-162 | as written, releasing memory after the view was released makes it report not released |
| SpillableViews.ReleaseMemoryKeepsReleased | flink-runtime/src/main/java/org/apache/flink/runtime/io/network/partition/SpillableSubpartitionView.java:154-162 | with the correction, a released view stays released after a release of memory |
| SpillableViews.AsWrittenRunRevivesView | flink-runtime/src/main/java/org/apache/flink/runtime/io/network/partition/SpillableSubpartitionView.java:74-162 | over a run of releaseAllResources then releaseMemory on a view of two buffers: as written the view spills its second buffer into a live spilled view and reports not released; corrected it stays released |
| SpillableViews.GuardedRunStaysReleased | flink-runtime/src/main/java/org/apache/flink/runtime/io/network/partition/SpillableSubpartitionView.java:134-162 | with the corrected releaseMemory, a view that reports released keeps doing so over any calls |
| Availability.Add | flink-runtime/src/main/java/org/apache/flink/runtime/io/network/partition/consumer/LocalInputChannel.java:187-193 | signals iff a positive count lifts the counter off zero; only a positive count is added |
| Availability.Take | flink-runtime/src/main/java/org/apache/flink/runtime/io/network/partition/consumer/LocalInputChannel.java:176-184 | always decrements; succeeds iff a buffer was announced, with more available iff at least two were; else "no buffer available" |
| Availability.CounterConserved | flink-runtime/src/main/java/org/apache/flink/runtime/io/network/partition/consumer/LocalInputChannel.java:176-193 | after any additions and takes, the counter is its start plus what was announced minus what was taken |
| Availability.BurstCoalesced | flink-runtime/src/main/java/org/apache/flink/runtime/io/network/partition/consumer/LocalInputChannel.java:187-193 | a burst of additions wakes an empty reader exactly once and a non-empty one never |
| Availability.AlternationSignalsEveryTime | flink-runtime/src/main/java/org/apache/flink/runtime/io/network/partition/consumer/LocalInputChannel.java:176-193 | k rounds of add-one then take-one wake the reader k times and leave the counter at zero |
| LocalInputChannels.Create | flink-runtime/src/main/java/org/apache/flink/runtime/io/network/partition/consumer/LocalInputChannel.java:80-94 | a new channel has no view, no buffers, no error and is not released |
| LocalInputChannels.RequestSubpartition | flink-runtime/src/main/java/org/apache/flink/runtime/io/network/partition/consumer/LocalInputChannel.java:100-137 | refused when released, a no-op with a view; a null view fails; a missing partition retries iff the backoff allows, else "Partition not found."; any other exception from the partition manager propagates with the channel unchanged; a view created after a release is released again and dropped |
| LocalInputChannels.RetriggerSubpartitionRequest | flink-runtime/src/main/java/org/apache/flink/runtime/io/network/partition/consumer/LocalInputChannel.java:142-144 | schedules a request iff no view was obtained, else "already requested partition" |
| LocalInputChannels.ScheduledRequest | flink-runtime/src/main/java/org/apache/flink/runtime/io/network/partition/consumer/LocalInputChannel.java:146-156 | the scheduled request never throws: its failure becomes the channel's error |
| LocalInputChannels.GetNextBuffer | flink-runtime/src/main/java/org/apache/flink/runtime/io/network/partition/consumer/LocalInputChannel.java:160-185 | a stored error first, then a missing view; otherwise one buffer off the count, succeeding iff one was announced, with more available iff two were |
| LocalInputChannels.NotifyBuffersAvailable | flink-runtime/src/main/java/org/apache/flink/runtime/io/network/partition/consumer/LocalInputChannel.java:187-193 | the gate hears of the channel iff a positive count arrives on an empty channel |
| LocalInputChannels.SendTaskEvent | flink-runtime/src/main/java/org/apache/flink/runtime/io/network/partition/consumer/LocalInputChannel.java:210-218 | succeeds iff no error is stored, a view exists and the producer was found |
| LocalInputChannels.NotifySubpartitionConsumed | flink-runtime/src/main/java/org/apache/flink/runtime/io/network/partition/consumer/LocalInputChannel.java:229-234 | forwarded to the view iff there is one |
| LocalInputChannels.ReleaseAllResources | flink-runtime/src/main/java/org/apache/flink/runtime/io/network/partition/consumer/LocalInputChannel.java:240-252 | the first call marks the channel released and releases and drops its view; later calls do nothing |
| LocalInputChannels.Apply | flink-runtime/src/main/java/org/apache/flink/runtime/io/network/partition/consumer/LocalInputChannel.java:100-252 | no call revives a released channel, and a view is released only by a call that held it and drops it; sending a task event changes nothing |
| LocalInputChannels.ApplyReleasesHeldView | flink-runtime/src/main/java/org/apache/flink/runtime/io/network/partition/consumer/LocalInputChannel.java:118-125 | one call releases a view only if the channel held it or just obtained it |
| LocalInputChannels.ViewReleasedAtMostOnce | flink-runtime/src/main/java/org/apache/flink/runtime/io/network/partition/consumer/LocalInputChannel.java:240-252 | over any calls each view is released at most as often as it was obtained, and never while still held |
| LocalInputChannels.HoldsViewUntilReleased | flink-runtime/src/main/java/org/apache/flink/runtime/io/network/partition/consumer/LocalInputChannel.java:100-252 | over any calls a live channel holds a view iff it had one or a request was answered with one, and no release happened since; it is released iff some call released it |
| LocalInputChannels.SendTaskEventNeedsView | flink-runtime/src/main/java/org/apache/flink/runtime/io/network/partition/consumer/LocalInputChannel.java:210-218 | from a new channel, a task event is published iff a request was answered with a view, no release happened, no error was stored and the producer was found |
| SequenceNumberingReaders.Create | flink-runtime/src/main/java/org/apache/flink/runtime/io/network/netty/SequenceNumberingViewReader.java:48-59 | a new reader has no view, no buffers, and sequence number -1 |
| SequenceNumberingReaders.RequestSubpartitionView | flink-runtime/src/main/java/org/apache/flink/runtime/io/network/netty/SequenceNumberingViewReader.java:61-80 | only the first request creates a view; a second fails with "Subpartition already requested" |
| SequenceNumberingReaders.GetNextBuffer | flink-runtime/src/main/java/org/apache/flink/runtime/io/network/netty/SequenceNumberingViewReader.java:90-112 | no buffer changes nothing; a buffer decrements the count, advances the number iff it has readable bytes, and fails iff it was not announced |
| SequenceNumberingReaders.NotifyBuffersAvailable | flink-runtime/src/main/java/org/apache/flink/runtime/io/network/netty/SequenceNumberingViewReader.java:130-136 | the reader is queued iff a positive count arrives while it has none |
| SequenceNumberingReaders.Forward | flink-runtime/src/main/java/org/apache/flink/runtime/io/network/netty/SequenceNumberingViewReader.java:114-128 | the forwarding calls reach the view iff there is one, and fail on its absence otherwise |
| SequenceNumberingReaders.Apply | flink-runtime/src/main/java/org/apache/flink/runtime/io/network/netty/SequenceNumberingViewReader.java:61-136 | no call lowers the sequence number or replaces a view; calls passed on to the view change nothing in the reader |
| SequenceNumberingReaders.SentNumbersIncreasing | flink-runtime/src/main/java/org/apache/flink/runtime/io/network/netty/SequenceNumberingViewReader.java:96-105 | data buffers are sent with strictly increasing numbers, above the starting one and up to the current one |
| SequenceNumberingReaders.SequenceNumberCountsDataBuffers | flink-runtime/src/main/java/org/apache/flink/runtime/io/network/netty/SequenceNumberingViewReader.java:54-102 | the sequence number is its start plus the number of buffers with readable bytes taken from the view |
| SequenceNumberingReaders.ViewRequestedOnce | flink-runtime/src/main/java/org/apache/flink/runtime/io/network/netty/SequenceNumberingViewReader.java:66-79 | once a view is obtained, no later call replaces it |
| SequenceNumberingReaders.ForwardNeedsRequestedView | flink-runtime/src/main/java/org/apache/flink/runtime/io/network/netty/SequenceNumberingViewReader.java:61-128 | over any calls, the calls passed on reach a view iff the reader had one or a request was answered with one, and always the same view once it exists |
| HadoopCommitters.Create | flink-filesystems/flink-hadoop-fs/src/main/java/org/apache/flink/runtime/fs/hdfs/HadoopRecoverableFsDataOutputStream.java:47-56 | a new stream starts an empty temporary file at position 0 |
| HadoopCommitters.Truncate | flink-filesystems/flink-hadoop-fs/src/main/java/org/apache/flink/runtime/fs/hdfs/HadoopRecoverableFsDataOutputStream.java:66-67 | truncation succeeds iff the file exists and has the length, keeps exactly that prefix and touches no other file |
| HadoopCommitters.Resume | flink-filesystems/flink-hadoop-fs/src/main/java/org/apache/flink/runtime/fs/hdfs/HadoopRecoverableFsDataOutputStream.java:58-69 | resuming truncates the temporary file to the recorded offset, and the position is then that offset |
| HadoopCommitters.Write | flink-filesystems/flink-hadoop-fs/src/main/java/org/apache/flink/runtime/fs/hdfs/HadoopRecoverableFsDataOutputStream.java:71-79 | an open stream appends the data to the temporary file and advances the position by its length |
| HadoopCommitters.Persist | flink-filesystems/flink-hadoop-fs/src/main/java/org/apache/flink/runtime/fs/hdfs/HadoopRecoverableFsDataOutputStream.java:96-100 | the recoverable carries the target, the temporary file and the current position |
| HadoopCommitters.CloseForCommit | flink-filesystems/flink-hadoop-fs/src/main/java/org/apache/flink/runtime/fs/hdfs/HadoopRecoverableFsDataOutputStream.java:102-107 | closes the stream; the committer expects the position taken before closing |
| HadoopCommitters.Move | flink-filesystems/flink-hadoop-fs/src/main/java/org/apache/flink/runtime/fs/hdfs/HadoopRecoverableFsDataOutputStream.java:146-151 | a rename puts the source's contents under the target name, removes the source and touches no other file |
| HadoopCommitters.Commit | flink-filesystems/flink-hadoop-fs/src/main/java/org/apache/flink/runtime/fs/hdfs/HadoopRecoverableFsDataOutputStream.java:126-152 | a missing staging file or a wrong length fails with the source's messages; otherwise a rename that happens leaves the target with the staged data and the staging file gone |
| HadoopCommitters.CommitAfterRecoveryAsWritten | flink-filesystems/flink-hadoop-fs/src/main/java/org/apache/flink/runtime/fs/hdfs/HadoopRecoverableFsDataOutputStream.java:154-188 | as written: truncates a longer staging file, leaves a shorter or missing one alone, and never renames |
| HadoopCommitters.CommitAfterRecoveryAsWrittenLeavesTargetMissing | flink-filesystems/flink-hadoop-fs/src/main/java/org/apache/flink/runtime/fs/hdfs/HadoopRecoverableFsDataOutputStream.java:171-188 | a concrete staging file after which recovery for commit still leaves the target missing |
| HadoopCommitters.CommitAfterRecovery | flink-filesystems/flink-hadoop-fs/src/main/java/org/apache/flink/runtime/fs/hdfs/HadoopRecoverableFsDataOutputStream.java:154-188 | corrected: truncates trailing junk, then renames the staging file to the target; with no staging file it does nothing |
| HadoopCommitters.RecoveredCommitPublishesPersisted | flink-filesystems/flink-hadoop-fs/src/main/java/org/apache/flink/runtime/fs/hdfs/HadoopRecoverableFsDataOutputStream.java:171-176 | recovery for commit publishes exactly the persisted prefix of the staging file under the target name |
| HadoopCommitters.RecoveryAfterCommitIsNoop | flink-filesystems/flink-hadoop-fs/src/main/java/org/apache/flink/runtime/fs/hdfs/HadoopRecoverableFsDataOutputStream.java:154-188 | recovering for commit after a completed commit changes nothing and succeeds |
| HadoopCommitters.PersistResumeCommitRoundTrip | flink-filesystems/flink-hadoop-fs/src/main/java/org/apache/flink/runtime/fs/hdfs/HadoopRecoverableFsDataOutputStream.java:58-152 | write, persist, junk, resume at the persisted position, write more, close and commit: the target holds the persisted data plus the later data |

## Left out

- Threads, locks, atomics and `volatile`: each guarded method is one atomic step. Interleavings are not modelled.
- The re-check of the released flag after a view was created (LocalInputChannel.java:121-125) is an input of `RequestSubpartition`. In the step sequence of `LocalInputChannels.Apply` it reads the channel's own flag. That flag is false there, because release takes the same lock.
- The `checkAndWaitForSubpartitionView` path of `getNextBuffer` (LocalInputChannel.java:165-173): it follows a check that already failed on a missing view, so it is unreachable in a sequential model.
- The timer, and the backoff arithmetic behind `increaseBackoff`: their effect is the `backoffIncreased` input and the `ScheduleRequest` signal.
- Buffer pool acquisition, blocking and non-blocking, and idle-time metering (BufferOrientedResultPartition.java:184-200): a new builder is an empty builder of one memory segment.
- `flushAll` and the priority flag of events: the flag is recorded with the event, but priority events are not reordered. Flushing has no effect on what consumers read.
- The subpartition classes (`PipelinedSubpartition`, `SpillableSubpartition`): they are not part of this model. They are an abstract queue whose decisions (whether `add` took a buffer, how much `releaseMemory` freed) are inputs.
- The spill file and `SpilledSubpartitionView` internals: the spill file is the sequence of buffers written to it, read back in order. The spilled view is reported released when asked to be or when the parent is.
- `SpillableViews`: producer appends after the view was created are not modelled. The view is read over a finished subpartition.
- Disk and Hadoop I/O failures other than those the source names, and the flush, sync and close passthroughs of the Hadoop stream. Writes reach the file directly.
- Logging, metrics (`numBuffersOut`, `numBytesIn`, idle time) and `toString`.
- `getFailureCause` and `isReleased` on the readers: both are plain reads or forwards, covered by `SequenceNumberingReaders.Forward` and the channel's `isReleased` field.
- Integer widths: counters and sequence numbers are unbounded, so `int` and `long` wrap-around is not modelled.
- The reference count value -1, which the class comment calls "released": no release sets it. It arises only from a consumption notice at count zero, which fails with "All references released." and leaves -1 behind; `CreateSubpartitionView` then reports "Partition released." as the source does.
- ResultPartitions.Create: `hasBackPressure` is an input independent of the partition type, because `ResultPartitionType` is not part of this model; combinations of type and back-pressure that the enumeration does not define are admitted.
- LocalInputChannels.ScheduledRequest: a failure overwrites the stored error and nothing is signalled to the gate. `InputChannel.setError` is not part of this model, so this storage policy is the model's choice.
- Exception messages composed at run time are not modelled: Flink's `Preconditions.checkElementIndex` appends ` Index: <i>, Size: <n>` to "Subpartition not found.", which the model keeps alone; index errors raised by the runtime or by Netty, and Netty's refusal to retain or recycle a buffer whose count is already zero, carry an empty message.

## Findings

| source | as written | input that shows it | evidently intended | confidence | as-written member | corrected member |
|---|---|---|---|---|---|---|
| flink-runtime/src/main/java/org/apache/flink/runtime/io/network/partition/BufferOrientedResultPartition.java:124-136 | `broadcastEvent` closes every unicast builder but not the broadcast builder, which stays open behind the event | a broadcast builder holding byte 1, event 7 broadcast, then byte 2 broadcast: consumers read 1, 2, 7 | the broadcast builder is closed too, so later bytes follow the event: 1, 7, 2 | medium, not executed | BufferOrientedPartitions.BroadcastEventAsWrittenCounterexample | BufferOrientedPartitions.BroadcastEventKeepsOrder |
| flink-filesystems/flink-hadoop-fs/src/main/java/org/apache/flink/runtime/fs/hdfs/HadoopRecoverableFsDataOutputStream.java:154-188 | `commitAfterRecovery` truncates trailing junk but never renames the staging file to the target | staging file `part-0.inprogress` of 3 bytes, recoverable offset 2, no `part-0`: afterwards `part-0` still does not exist | after truncation the staging file is renamed to the target, as `commit` does | high, not executed | HadoopCommitters.CommitAfterRecoveryAsWrittenLeavesTargetMissing | HadoopCommitters.RecoveredCommitPublishesPersisted |
| flink-runtime/src/main/java/org/apache/flink/runtime/io/network/partition/SpillableSubpartitionView.java:74-162 | `releaseMemory` does not check the released flag, and `releaseAllResources` keeps `nextBuffer`, so memory released after the view spills a fresh spilled view, and `isReleased` then reads that view's flag | a view over buffers b1, b2, released, then asked to release memory: it spills b2 and reports not released | a released view frees nothing and stays released | medium, not executed | SpillableViews.ReleaseMemoryAsWrittenRevivesView | SpillableViews.ReleaseMemoryKeepsReleased |
