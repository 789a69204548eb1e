# A verified model of resgraph

`resgraph` keeps a graph of resources alive from one stream of update messages and
makes strong promises about it: whatever order and duplication the stream arrives
in, the hot graph converges; the cold history answers "what was true at T" the
same with and without snapshots; a lost graph is rebuilt into the one that was
lost; a crash of the consumer loses and doubles nothing; a failed remediation is
unwound honestly; a streamed answer is never spliced from two; a pushed-down
predicate means what evaluating it would mean; the triage loop ends, inside its
budgets, with a report that cites only what the run saw. This project states those
promises over a model of the code and proves them.

`dafny verify dfyconfig.toml` checks everything.

## How the model is laid out

| module | what it models |
|---|---|
| Messages | the one message type, redelivery and "the newest statement about a resource" |
| HotGraph, Ingest | the hot graph: the effect of one transaction as a function, and the store that performs it statement by statement |
| ColdStore | the event and snapshot tables and the event-time queries |
| Rebuild, Reconcile | loading a lost hot store from history, and comparing the two stores |
| Consumer, Containment, Delivery | the at-least-once consumer as a protocol with crashes, its retry, split and dead-letter ladder, and what whole runs of it come to |
| Topology, World, Churn | the generator's world, its indexes and the stream it emits |
| Remediation | the compensating writer and the saga's step machine over a live ingest |
| Dispatch, Ordering | gateway health and slots, and the order of candidates |
| Registry, Walk, Server, Relay | routing as a function of the moment, the failover walk as a trail of hops, the gateway that drives it, and the streaming relay |
| Traverse, Query | blast radius, and the planner and executor of filtered queries |
| Rows, Schedule, Pipeline | the raw-first ingest: what rows mean, every interleaving of producers and workers, and the spool, queue, sink and passes themselves |
| Triage | the budgeted agent loop |

Objects the code updates in place are classes (`HotStore`, `ColdTables`, `World`,
`Churn`, `StreamConsumer`, `Ingestion`, `Remediator`, `StepMachine`, `Backend`,
`Gateway`, `StreamAccount`, `Spool`, `RefQueue`, `Sink`, `Transcript`, `Triager`);
their methods are proved against functions of the old state. Random draws, model
replies, tool outcomes, clocks, crashes and cancellations are arbitrary choices.

## What has to be assumed, and what turned out not to hold

The promises hold under conditions a caller can check. Where a promise fails of the
code, the model keeps the code and says exactly when it holds.

* Two stores: messages with the same resource and sequence are the same message
  (`Consistent`). Single and batch applies may differ in stray placeholder nodes, so
  graphs are compared on described nodes and all edges (`SameView`).
* Hot equals cold exactly when no surviving statement lists a relationship twice:
  `Reconcile.HotEqualsCold`, with the repeated relationship in `RepeatIsReported`.
  The gap is the open question in `src/resgraph/schema.py`, lines 8-10.
* Snapshots are invisible when no new event arrives at or below a taken watermark and
  no snapshot is taken over a later event of lower sequence (`ColdStore.Guarded`,
  which event time in sequence order implies). `LateEventIsHidden` breaks the first
  with one event and `LateEventExactly` says for which late events it stays true;
  `UnguardedSnapshotHides` breaks the second, and so does `SharedWatermarkShows`, where
  the snapshot gets the watermark of an older one of a later time; `UnguardedExactly`
  says of every read when it stays true.
* The consumer is effectively once if and only if no entry that committed before it
  was dead-lettered still shows: `Consumer.EffectivelyOnce`. With entries that always
  fail, fewer crashes than the delivery cap, and any other failure that is not some
  sound entry's last attempt, that is so, and the dead-letter stream holds exactly the
  entries that always fail: `Delivery.PoisonIsIsolated`. With as many crashes as
  the cap, and nothing failing at all, it need not be: `CapManyCrashes`.
* The snapshot loader takes the last message about a resource and merges attributes and
  edges, where the ingest takes the newest and replaces them (`Rebuild.LoaderMerges`).
  It equals a batch ingest if and only if each resource's last message is an upsert of
  its highest sequence and states every attribute and relationship an earlier one does:
  `LoadExactly`. The one upsert per resource a rebuild feeds it is such: `LoadIsBatch`.
* A confirmed write needs a sequence of at least one, because the code reads
  `applied_seq or -1`: `LandedIsConfirmed` is exact and `PlaceholderWriteIsDisowned`
  is the write of sequence 0 to a placeholder that lands and is disowned.
* The rollback guard compares watermarks. It is exact unless another writer used the
  very sequence this step used: `GuardIsExact` and `SameSequenceIsClobbered`. The
  read-back compares watermarks too: a write is confirmed once anything as new is
  there (`ReachedExactly`), so a rollback that loses the race for its sequence is
  reported as done: `RacedRollback`.
* The failover walk looks the chosen backend up by provider, so it ends early when the
  best eligible backend is endpoint-keyed: `Registry.NextExactly` is the exact
  condition, `EndpointKeyedEndsTheWalk` and `Server.ExpandedIsRefused` are instances,
  and without expanded endpoints the search is complete
  (`ProviderKeyedIsComplete`).
* It recognises a tried backend by the text before the first colon, which works exactly
  for names without one (`HeadOfHop`). A provider with a colon stays eligible after its
  failure (`ColonStaysEligible`), takes another one out (`ColonSkipsAnother`) and may
  be tried for ever (`Forever`). Walks are bounded if and only if no provider with a
  colon in its name has an endpoint that is not expanded on some route with no earlier
  route that has only expanded endpoints of that provider (`Loopless`, `WalksEnd`;
  `ColonBehindExpanded` is a harmless colon). The methods that loop take a number of
  rounds and say what they reached; in a loopless registry they finish, and in any
  other, if the backends have room, some request is answered after no number of rounds
  (`Server.Gateway.NeverAnswered`).
* Pushing a predicate down and evaluating it may differ on a stored value of another
  kind than the literal's; `MisfitExactly` says for every operator, value and engine
  cast when they agree. `NullIsNotUnequal`, `FourIsTrue` and `TextIsFour` are values
  on which they do not.
* The rows an ingest pass reports are counted before and after each write and lost if
  it dies, and what another worker inserts in between is counted too. Under every
  schedule the reports add up to the distinct keys if and only if as many rows were
  counted twice as were lost with a dead pass (`Schedule.ReportsExactly`); with one
  worker at a time, if and only if no pass died after adding a row (`ReportsAlone`).
  `DeathUnderReports` and `OverlapOverReports` break it. The table itself is right
  under every schedule.
* A run that fails or is cancelled restores an executed target exactly if the restoring
  write landed. It is emitted for every such target (`Remediation.StepMachine.Execute`), but the
  code waits for it only so long: a rollback logged as failed is restored if and only if
  the watermark passed what the step wrote, becomes so when the write lands, and may
  never (`UndoneExactly`, `PutBackExactly`, `UndoMayNotLand`).
* A step of a remediation that fails may still have emitted its write, which nothing
  undoes: the target is as the approver saw it exactly while its watermark is, and sure
  to stay so exactly if the step emitted nothing (`Remediation.FailedStaysExactly`);
  `FailedWriteLands` is the write that arrives after the run was unwound.
* The generator mints the next number of a kind without a look at what is there. The
  world stays consistent if and only if that number was free (`World.Create`), as it is
  in every generated world (`NextIsFree`).
* `src/resgraph/gateway/accounting.py`, lines 12-14, speaks of one silent restart. The
  relay restarts after every zero-token death, as long as the walk finds a backend;
  the model follows the relay.

## Model

| member | source | states |
|---|---|---|
| HotGraph.BatchIsFold | src/resgraph/graph/ingest.py:172-282 | one batch transaction leaves the described nodes and edges that applying its messages one by one leaves, ties and duplicates included, may only omit placeholder nodes, and reports no more applications |
| HotGraph.StepReflects | src/resgraph/graph/ingest.py:70-84 | a store that holds what the newest statements of a message set say still does after one more message, fresh or stale |
| HotGraph.BatchReflects | src/resgraph/graph/ingest.py:172-282 | the same for a whole batch |
| HotGraph.RunReflects | src/resgraph/graph/ingest.py:59-84 | the same along any run of single and batch applies |
| HotGraph.SameReflection | src/resgraph/graph/ingest.py:70-147 | what a message set says determines the described nodes and all edges |
| HotGraph.Convergence | src/resgraph/graph/ingest.py:70-282 | any order, duplication and split of one message set into single and batch applies ends in the same graph, the one stated by each resource's highest-sequence message |
| HotGraph.FoldWellFormed | src/resgraph/graph/ingest.py:87-147 | along every run only described, not deleted nodes own outbound edges, every edge ends at a node, tombstones carry no attributes and an undescribed node is exactly a placeholder |
| Ingest.HotStore.Apply | src/resgraph/graph/ingest.py:70-84 | the watermark-guarded transaction changes the store as `Step` does and reports whether it applied |
| Ingest.HotStore.WriteUpsert | src/resgraph/graph/ingest.py:87-126 | replace the node, drop its old outbound edges, merge the new ones with placeholders for unknown targets |
| Ingest.HotStore.WriteTombstone | src/resgraph/graph/ingest.py:129-147 | keep the node as a tombstone at the delete's sequence and drop its outbound edges |
| Ingest.HotStore.PickBest | src/resgraph/graph/ingest.py:172-181 | one candidate per resource, the first message of highest sequence |
| Ingest.HotStore.ApplyBatch | src/resgraph/graph/ingest.py:172-282 | the statements of a batch together change the store as `BatchStep` does; applied counts the winners, applied and skipped add up to the batch |
| ColdStore.ReplayIsLatest | src/resgraph/cold/queries.py:25-45 | the newest statement of a resource by T is a row of the replayed state if an upsert and a tombstone if a delete |
| ColdStore.RowLatest | src/resgraph/cold/queries.py:25-45 | every row of the replayed state is such a statement |
| ColdStore.TombstoneLatest | src/resgraph/cold/queries.py:199-223 | every tombstone at T is a newest statement that is a delete |
| ColdStore.AliveOrBuried | src/resgraph/cold/queries.py:199-223 | every resource with an event by T is either one row or a tombstone, never both, and no resource has two rows |
| ColdStore.SnapshotIsReplay | src/resgraph/cold/queries.py:77-156 | state at T from the newest snapshot at or before T equals replaying every event, if each watermark taken still stands for the events at or below it |
| ColdStore.AppendKeepsFaithful | src/resgraph/cold/store.py:120-127 | appends keep that, duplicates of known events included, if new events are above every watermark |
| ColdStore.SnapshotKeepsFaithful | src/resgraph/cold/queries.py:233-281 | a snapshot at T, itself computed from older snapshots, keeps that, if no event at or below its watermark is later than T |
| ColdStore.SnapshotsNeverShow | src/resgraph/cold/queries.py:104-156 | along any interleaving of appends and chained snapshots, state at every T equals the pure replay, if no new event lands under a taken watermark and no snapshot is taken over a later event of lower sequence |
| ColdStore.UnguardedExactly | src/resgraph/cold/queries.py:77-156 | of every read after any snapshot chained to good ones, taken over later events of lower sequence or not: one that rests on another watermark equals the replay, and one that rests on the new watermark does if and only if each event the snapshot hides was superseded by then, is a row of an older snapshot under the same watermark, or deletes a resource the snapshot does not have, and each row of those older ones was stated or superseded by then |
| ColdStore.UnguardedSnapshotHides | src/resgraph/cold/queries.py:248-255 | a concrete snapshot taken while a later event has a lower sequence: at every read from that event's time on it is in the replay and not in the state |
| ColdStore.SharedWatermarkShows | src/resgraph/cold/queries.py:77-101 | a concrete snapshot under the watermark of an older one of a later time: read in between, the state has a row of that later time, although no event is hidden |
| ColdStore.LateEventIsHidden | src/resgraph/cold/queries.py:67-74 | a concrete event arriving under a watermark that the replay shows and the snapshot-accelerated state does not |
| ColdStore.LateEventExactly | src/resgraph/cold/queries.py:67-74 | after a late event the two states agree if and only if it was superseded before it came or deletes a resource that was not alive |
| ColdStore.ColdTables.SnapshotAt | src/resgraph/cold/queries.py:233-281 | what is appended is the state at T under the highest sequence at or before T, nothing for an empty history; taken snapshots stay faithful |
| ColdStore.ColdTables.AppendEvents | src/resgraph/cold/store.py:120-127 | the event table only grows, duplicates kept, and snapshots stay as they were |
| Rebuild.LoadSnapshot | src/resgraph/graph/loader.py:26-74 | refused untouched on a non-empty store; otherwise it leaves exactly the loaded graph: of several messages about one resource the last gives the sequence, attributes add up, edges join, unknown targets are placeholders |
| Rebuild.LastLoaded | src/resgraph/graph/loader.py:34-51 | whatever ids repeat, the last message about a resource gives its watermark and overrides each attribute it states |
| Rebuild.LoaderMerges | src/resgraph/graph/loader.py:42-51 | an attribute that only an older message about the same resource states survives a load, and not an ingest |
| Rebuild.LoadExactly | src/resgraph/graph/loader.py:26-74 | of messages that agree, a load leaves what one batch apply on an empty store leaves if and only if the last message about each resource is an upsert of its highest sequence that states every attribute and relationship any message about it states |
| Rebuild.LoadIsBatch | src/resgraph/graph/loader.py:26-74 | with one upsert per resource, as a rebuild feeds it, a load is one batch apply on an empty store |
| Rebuild.SynthesizeUpserts | src/resgraph/cold/rebuild.py:26-39 | one upsert per state row, at the row's own sequence |
| Rebuild.SynthesizeDeletes | src/resgraph/cold/rebuild.py:56-68 | one delete per tombstone, at its own sequence |
| Rebuild.TombstonesAllApply | src/resgraph/cold/rebuild.py:56-68 | no tombstone is refused by the watermarks the load left |
| Rebuild.TopIsCovered | src/resgraph/cold/rebuild.py:56-75 | the highest sequence reported is the highest of any event at or before T |
| Rebuild.RebuildIsIngest | src/resgraph/cold/rebuild.py:42-75 | loading the state at T and burying its tombstones gives what ingesting every event up to T gives: described nodes, edges, watermarks and tombstones |
| Rebuild.RebuildThenResume | src/resgraph/cold/rebuild.py:42-75 | whatever is redelivered afterwards, in any order and batching, ends in the graph of a store that was never lost |
| Rebuild.RebuildAt | src/resgraph/cold/rebuild.py:42-75 | on the live stores: refused on a non-empty graph, a no-op without events, else the graph reflects every event up to T and the counts are those of rows and tombstones |
| Reconcile.DumpHot | src/resgraph/reconcile.py:24-48 | exactly the alive described resources with their outbound relationships |
| Reconcile.DumpCold | src/resgraph/reconcile.py:51-63 | one entry per row of the newest state |
| Reconcile.Compare | src/resgraph/reconcile.py:81-99 | each list of the report holds exactly the ids that differ in that respect |
| Reconcile.EmptyReport | src/resgraph/reconcile.py:81-99 | the report is empty if and only if the two dumps are equal |
| Reconcile.HotEqualsCold | src/resgraph/reconcile.py:24-99 | stores fed one message set in any order and with any duplicates agree if and only if no surviving statement lists a relationship twice |
| Reconcile.RepeatIsReported | src/resgraph/reconcile.py:81-99 | one message naming one relationship twice makes the two dumps differ |
| Reconcile.Reconciled | src/resgraph/reconcile.py:24-99 | the same of the live check, snapshots and empty stores included |
| Consumer.AdvanceKeeps | src/resgraph/consumer.py:136-271 | each ack, screening, apply outcome, split and dead-letter step keeps: acked entries were answered, nothing pending is lost, no entry is worked on twice |
| Consumer.StepKeeps | src/resgraph/consumer.py:101-134 | so do producing, both kinds of read and a crash at any point |
| Consumer.EveryRunIsSafe | src/resgraph/consumer.py:101-271 | along every run with crashes between any two steps an acked entry was found invalid, committed or dead-lettered, and the store holds what the committed entries say |
| Consumer.CommittedOnce | src/resgraph/consumer.py:101-271 | at any point of any run, crashes included, the store equals applying each committed entry once, in stream order, however often and in whatever batches it was applied |
| Consumer.EffectivelyOnce | src/resgraph/consumer.py:101-271 | when all is drained, the store equals applying each parseable entry that was not dead-lettered once, in stream order, if and only if every entry that committed before it was dead-lettered is matched by a kept statement about its resource that is no older |
| Consumer.NothingLost | src/resgraph/consumer.py:101-271 | when all is drained every valid entry was committed or dead-lettered, and nothing else was |
| Delivery.PoisonIsIsolated | src/resgraph/consumer.py:101-271 | if the poison entries never commit, no sound entry fails its last attempt, and the consumer crashed fewer times than the delivery cap, wherever, then whatever else fails or is out, also after a commit, once drained the dead-letter stream holds exactly those entries and the store is every other valid entry applied once |
| Delivery.CapManyCrashes | src/resgraph/consumer.py:233-254 | that bound cannot be raised: for every cap, a run with as many crashes and no failing entry ends with a committed entry dead-lettered and the store showing it |
| Delivery.CrashesCount | src/resgraph/consumer.py:233-254 | each read cut short by a crash raises a pending entry's delivery count by one and keeps it among the oldest |
| Delivery.Quarantined | src/resgraph/consumer.py:156-254 | an entry whose batches keep crashing is acknowledged, and dead-lettered if still pending, by the first batch to complete once its deliveries pass the cap |
| Consumer.BatchTerminates | src/resgraph/consumer.py:172-231 | every step of a batch other than an outage of the store shrinks what is left of it; an outage changes nothing but what the store may have committed before the connection broke |
| Consumer.DrainProgress | src/resgraph/consumer.py:136-271 | a finished batch removed exactly its own entries from the pending list |
| Consumer.DrainRound | src/resgraph/consumer.py:110-134 | each round of the pending drain reads something and acks exactly what it read |
| Containment.CallBound | src/resgraph/consumer.py:172-231 | isolating p poison entries among n takes at most max_retries + 1 + 2·p·ceil(log2 n) apply calls |
| Containment.CeilLog2Meaning | src/resgraph/consumer.py:172-231 | the logarithm in that bound is the ceiling of the binary logarithm |
| Containment.Parted | src/resgraph/consumer.py:172-231 | the two parts in the contracts below are the poison entries and the others |
| Containment.BatchTwice | src/resgraph/consumer.py:185-201 | a batch whose reply was lost after the commit may be applied again: the second time changes nothing |
| Containment.StreamConsumer.Attempt | src/resgraph/consumer.py:172-218 | retries are spent on failures only, never on outages, also not on one that strikes after the commit; on success everything is acked, on failure nothing changed |
| Containment.StreamConsumer.ApplyEntries | src/resgraph/consumer.py:172-231 | exactly the poison entries are dead-lettered, in order; the store equals applying exactly the others in order; all are acked; the calls made are those the bound is about |
| Containment.StreamConsumer.Quarantine | src/resgraph/consumer.py:233-254 | entries delivered more often than the cap go to the dead-letter stream and are acked, the others are kept in order |
| Containment.StreamConsumer.ApplyBatch | src/resgraph/consumer.py:136-170 | a whole batch: every entry ends acked and is counted once as applied, skipped, invalid or dead-lettered |
| Topology.Insort | src/resgraph/gen/world.py:171-172 | insertion adds exactly one id, and the list stays strictly sorted if and only if the id was not in it |
| Topology.Remove | src/resgraph/gen/world.py:181-184 | removal keeps the list sorted and drops exactly one id |
| World.World.constructor | src/resgraph/gen/world.py:96-120 | a seeded world is consistent, populated, within its topology, and has a nonempty hot set of the advertised size |
| World.World.IndexAdd | src/resgraph/gen/world.py:143-145 | the reverse index gains the source under exactly its targets |
| World.World.IndexRemove | src/resgraph/gen/world.py:147-151 | and loses it under exactly them |
| World.World.RollRelationships | src/resgraph/gen/world.py:189-203 | rolled edges are typed, distinct, alive and within every row's bounds wherever the mandatory rows have a target |
| World.World.SetRelationships | src/resgraph/gen/world.py:153-156 | keeps every index and the reverse index exact |
| World.World.Create | src/resgraph/gen/world.py:158-173 | a minted, revived or explicitly given id joins the alive lists and the reverse index with rolled edges, whatever is there; the world stays consistent if and only if the id was given or the minted number was free |
| World.NextIsFree | src/resgraph/gen/world.py:122-124 | the next number is free as long as every id was minted, as in every generated world |
| World.World.Rewire | src/resgraph/gen/world.py:205-223 | the one dangling edge is retargeted to an unused, allowed, alive target, or dropped only if the row lacks spare targets |
| World.World.RepairDangling | src/resgraph/gen/world.py:205-223 | afterwards nothing points at the dead resource, only its dependents changed, each in one edge, and every index is exact |
| World.World.Delete | src/resgraph/gen/world.py:175-187 | the tombstone leaves all lists, its dependents are repaired, the world is consistent again |
| World.SpareTarget | src/resgraph/gen/world.py:205-223 | a pool as large as a row's maximum always offers a target the source does not use |
| World.RepairedFits | src/resgraph/gen/world.py:205-223 | a repair keeps the row bounds, and keeps every row's count where a replacement was found |
| World.TargetsComeFirst | src/resgraph/gen/world.py:71-80 | creation order seeds every mandatory target type before its source |
| Churn.FloorsAreAmple | src/resgraph/gen/churn.py:16-22 | types kept at their floors give every row that may point at them as many targets as a source can use |
| Churn.MeetsAfterDelete | src/resgraph/gen/churn.py:105-111 | after a delete above the floor every alive resource still meets every row's minimum |
| Churn.Churn.DeleteOne | src/resgraph/gen/churn.py:105-111 | whatever is drawn, at most one type shrinks, by one and from above its floor, and the world stays consistent, populated and within its topology |
| Churn.Churn.NextMessage | src/resgraph/gen/churn.py:46-61 | along every churn run: the next message is the resource's whole state at the next sequence, time never runs back, and the world keeps its indexes and row bounds |
| Churn.GeneratedStreamIsSafe | src/resgraph/gen/churn.py:46-77 | a generated stream meets what the two stores assume: no sequence reused, time in sequence order, so that a snapshot may be taken at any time, no relationship listed twice |
| Remediation.Remediator.PlanMessage | src/resgraph/analyst/executor.py:138-161 | the write is one above the live watermark; a patch keeps all other attributes and every edge; a missing target or unknown action is refused |
| Remediation.LandedIsConfirmed | src/resgraph/analyst/executor.py:106-117 | a write that landed is confirmed by the read-back if and only if its sequence is at least one |
| Remediation.PlaceholderWriteIsDisowned | src/resgraph/analyst/executor.py:106-117 | a write to a placeholder lands at sequence 0 and is reported as not confirmed |
| Remediation.Remediator.ApplyStep | src/resgraph/analyst/executor.py:163-166 | without other writers a landed step leaves the target exactly at the sequence it recorded, one above the old one, with nothing older in flight able to change it, and patched or deleted as the step says; a step has landed if and only if its write was read back |
| Remediation.Remediator.RollbackStep | src/resgraph/analyst/executor.py:168-187 | with any other writers: the write that states the snapshot one above what the step wrote is emitted if and only if the watermark still is what it wrote, nothing else is, and the rollback is reported if and only if that write's sequence was read back; without them a reported rollback restored attributes, edges and deleted flag at a strictly higher watermark, and after one that raised the target is as the step left it |
| Remediation.UndoneExactly | src/resgraph/analyst/executor.py:168-187 | while the restoring write is out, without other writers, the target is as the approver saw it with nothing in flight exactly if its watermark passed what the step wrote, is then sure to stay so, and becomes so the moment that write lands |
| Remediation.UndoMayNotLand | src/resgraph/analyst/executor.py:106-117 | a run whose restoring write is not read back in time; if it is lost the target stays other than the approver saw it exactly if the step changed anything |
| Remediation.PutBackExactly | src/resgraph/analyst/remediation.py:149-163 | an executed target of an unwound run is as the approver saw it if and only if its rollback was reported or its watermark passed what the step wrote |
| Remediation.ReachedExactly | src/resgraph/analyst/executor.py:106-117 | a write that reached the store is confirmed whoever's message is there, and the node holds it if and only if it was fresh or there already |
| Remediation.RacedRollback | src/resgraph/analyst/executor.py:168-187 | another writer that takes the rollback's sequence first leaves it confirmed and the node not restored |
| Remediation.ConfirmedIsOurs | src/resgraph/analyst/executor.py:106-117 | without other writers a confirmed sequence means the message itself landed |
| Remediation.StepAside | src/resgraph/analyst/executor.py:106-187 | writes to one target leave what is known of every other target true |
| Remediation.GuardIsExact | src/resgraph/analyst/executor.py:173-187 | if deliveries agree, a node at the sequence this step wrote holds this step's message |
| Remediation.SameSequenceIsClobbered | src/resgraph/analyst/executor.py:173-187 | another writer's message with the very same sequence is taken for this step's and overwritten by its rollback |
| Remediation.StepMachine.Cancel | src/resgraph/analyst/remediation.py:120-127 | only the owner may cancel, and only an unfinished run |
| Remediation.StepMachine.Emit | src/resgraph/analyst/remediation.py:129-147 | callable only where none of the three guards would fire, and appends one event |
| Remediation.FailedStaysExactly | src/resgraph/analyst/remediation.py:165-184 | without other writers the target of a step that failed is as the approver saw it exactly while its watermark is, and sure to stay so if and only if the step emitted nothing |
| Remediation.FailedWriteLands | src/resgraph/analyst/remediation.py:165-184 | the write of a step logged as failed may arrive after the run was unwound, takes effect, and is not undone |
| Remediation.StepMachine.Unwind | src/resgraph/analyst/remediation.py:149-163 | one rollback event per executed step, last first; without other writers every target whose rollback is reported is as the approver saw it, the restoring write is out for every other, none is called irreversible, and no other step's target is touched |
| Remediation.StepMachine.Execute | src/resgraph/analyst/remediation.py:165-184 | for every cancel timing and every outcome the log is k started/succeeded pairs, then nothing, a cancellation, or a started/failed pair, and then exactly one rollback event for k-1 down to 0; for a plan over distinct, honestly snapshotted targets, after a completed run every target is as its step makes it; after any other every executed target is restored at a strictly higher watermark, or its rollback is logged as failed and its restoring write is out, nothing else is in flight, and it holds what the step or that write makes of it; every later target is as the approver saw it, but that on the failing step's the one write it emitted may land |
| Remediation.SummaryIsLast | src/resgraph/analyst/remediation.py:186-192 | the summary is each index's last event |
| Remediation.SummaryOfLog | src/resgraph/analyst/remediation.py:165-192 | of a finished run it reads: every started step succeeded, or was unwound, and the next one was cancelled or failed |
| Dispatch.ReadmissionIsEarned | src/resgraph/gateway/dispatch.py:34-52 | after any probes a backend is down exactly while fewer than the required successes in a row followed its last failure |
| Dispatch.PickMeans | src/resgraph/gateway/dispatch.py:162-169 | the first of the best standing among the backends not down, none exactly if all are down |
| Ordering.InverseSquare | src/resgraph/gateway/server.py:732-752 | an endpoint priced k times higher weighs k squared times less |
| Ordering.PickInterval | src/resgraph/gateway/server.py:742-751 | an endpoint is drawn exactly when the draw falls into its own share of the total weight |
| Ordering.Lottery | src/resgraph/gateway/server.py:732-752 | for every draw, the fall-through past the sum included, a permutation of the pool |
| Ordering.OrderCandidates | src/resgraph/gateway/server.py:712-729 | a permutation of the candidates, free ones first by standing, then the priced groups in order |
| Registry.Registry.ServingMeans | src/resgraph/gateway/server.py:187-200 | an alias is served by an endpoint of best standing among those not down, by its first if all are down, and by none only without endpoints |
| Registry.Registry.TableMeans | src/resgraph/gateway/server.py:202-212 | the routing table names each provider once, enters exactly those that serve a route, and at the endpoint of the first such route |
| Registry.Registry.BestProviderMeans | src/resgraph/gateway/server.py:306-325 | the backend a search settles on is routed, untried, affordable and not down, none such has a better standing, and it settles on none exactly if there is none |
| Registry.Registry.NextExactly | src/resgraph/gateway/server.py:214-215 | a hop is missing if and only if nothing is eligible or the best eligible backend is endpoint-keyed, so that the lookup by its name finds nothing |
| Registry.Registry.ProviderKeyedIsComplete | src/resgraph/gateway/server.py:306-325 | if no served model has an expanded endpoint, a hop is missing if and only if nothing is eligible |
| Registry.EndpointKeyedEndsTheWalk | src/resgraph/gateway/server.py:214-215 | a registry and a moment in which a backend is eligible and the search finds none |
| Walk.HeadOfHop | src/resgraph/gateway/server.py:313 | a recorded hop is recognised as its backend if and only if the name has no colon |
| Walk.ColonStaysEligible | src/resgraph/gateway/server.py:313-319 | a provider with a colon in its name is as eligible after its recorded failure as before |
| Walk.ColonSkipsAnother | src/resgraph/gateway/server.py:313-319 | and the provider named by the part before the colon, never tried, is eligible no more |
| Walk.HopHasNoColon | src/resgraph/gateway/server.py:306-325 | in a loopless registry every hop across models is to a backend whose failure will be recognised |
| Walk.NoRetry | src/resgraph/gateway/server.py:343-392 | in a loopless registry a walk through any moments tries no backend twice, unless its endpoint plan does |
| Walk.HopsAreBounded | src/resgraph/gateway/server.py:343-392 | and makes no more hops across models than there are backends to hop to |
| Walk.Forever | src/resgraph/gateway/server.py:343-392 | whatever chain it continues and plan it goes through, a walk of any length goes to a provider with a colon that can be returned to again and again, while nobody stands as well |
| Walk.WalksEnd | src/resgraph/gateway/server.py:343-392 | whatever chain a walk continues and plan it goes through, its hops are bounded, however backends fail and look, if and only if no provider with a colon in its name has an endpoint that is not expanded on some route with no earlier route that has only expanded endpoints of that provider |
| Walk.ColonBehindExpanded | src/resgraph/gateway/server.py:202-215 | a registry with a colon in a routed provider's name in which every walk ends |
| Server.Gateway.ServingEndpoint | src/resgraph/gateway/server.py:181-200 | the endpoint found by name among the candidates is the one of `Serving`, ties and shared backends included |
| Server.Gateway.Routed | src/resgraph/gateway/server.py:202-212 | the table built route by route is the routing table of the moment |
| Server.Gateway.NextAlias | src/resgraph/gateway/server.py:306-325 | the search over the live backends gives the hop of the moment: best standing, looked up by name |
| Server.Gateway.GiveUp | src/resgraph/gateway/server.py:395-425 | the refusal blames the budget if and only if there is one, it is spent, and lifting it would find a hop |
| Server.Gateway.ServeWithWalk | src/resgraph/gateway/server.py:343-425 | for every failure pattern and every sequence of moments between attempts: attempts go through the plan and then to the hop of the moment there is, all but the last failed, its outcome is the answer, a pin fails after one attempt, each failure is one chain entry, a slot is held exactly for an opened stream, and 503 comes only after the whole plan and if the moment then offers no hop; within as many rounds as the plan and the routable backends together a loopless registry answers |
| Server.Gateway.FinishesOnce | src/resgraph/gateway/server.py:343-425 | what the attempts come to and the moments between them determine the walk, its chain and its answer |
| Server.Gateway.WalkingIsShort | src/resgraph/gateway/server.py:343-392 | in a loopless registry a walk that can still go on made fewer attempts than its plan and the routable backends together |
| Server.Gateway.NeverAnswered | src/resgraph/gateway/server.py:343-392 | if the registry is not loopless and the backends have room, there is for every chain and plan, of a request or of a replacement stream, a course that is still walking after any number of rounds and that no walk finishes |
| Server.Gateway.RefusalMeans | src/resgraph/gateway/server.py:395-425 | without expanded endpoints 503 means that nothing is eligible, and the budget is blamed exactly if lifting it makes something eligible |
| Server.ExpandedIsRefused | src/resgraph/gateway/server.py:343-425 | a gateway whose second model has only an expanded endpoint answers 503 after one failure, also while that backend is eligible |
| Server.Gateway.Reopen | src/resgraph/gateway/server.py:1096-1107 | a reopened stream is on the first hop that opens, on a backend not in the chain, with exactly one slot; it is missing only for a pinned request, if no hop is left, or while the walk still goes on, which a loopless registry ends within as many rounds as it has routable backends |
| Relay.Pump | src/resgraph/gateway/relay.py:92-98 | the lines sent are the content events read, in order, the usage kept is the last one, whenever the client hangs up |
| Relay.Conclude | src/resgraph/gateway/relay.py:99-149 | the slot is given back first; a stream that died without content is replaced by the first hop that opens, and its error is observed only if the request is pinned or the search is stuck at that moment; every other stream has exactly one outcome observed |
| Relay.Run | src/resgraph/gateway/relay.py:66-149 | for all streams, reopen results and hang-up points: every slot admitted is given back exactly once, every replaced stream had sent nothing, a run that ends on a stream without content was pinned or left without a hop, and at most one of end, error and disconnect is observed, agrees with what the client got, and in a loopless registry is observed within one round more than there are routable backends |
| Relay.NeverSpliced | src/resgraph/gateway/relay.py:1-9 | all content lines a client got come from one stream, and only the last line can be anything else |
| Traverse.BallIsPaths | src/resgraph/query/executor.py:86-104 | a resource is within distance k exactly if some dependency path of at most k edges leads from it to the root |
| Traverse.Blast | src/resgraph/query/executor.py:86-104 | the search returns exactly the resources within the depth, the root excluded, cycles and repeated edges included; a negative depth is unbounded |
| Traverse.FoundAreAlive | src/resgraph/graph/queries.py:63-80 | everything the live search reaches is alive: tombstones and placeholders own no edges |
| Traverse.LiveIsAsOf | src/resgraph/graph/queries.py:47-80 | the live blast radius equals the search over the newest reconstructed state, whatever order, duplicates and batches the stores saw |
| Query.Place | src/resgraph/query/planner.py:69-81 | refused exactly if some type test is an ordering or names no type |
| Query.Kept | src/resgraph/query/planner.py:69-72 | claimable and residual part the predicates, duplicates counted |
| Query.ClaimableAgain | src/resgraph/query/executor.py:107-109 | the claimable part the executor recomputes is the planner's |
| Query.DuckWhere | src/resgraph/query/planner.py:96-111 | the i-th clause compares as its predicate asks, with the i-th bound literal, under the cast of that literal's type |
| Query.ConjunctionKeeps | src/resgraph/query/planner.py:111 | under three-valued logic the WHERE is true exactly if every clause is |
| Query.CompiledMeans | src/resgraph/query/planner.py:96-186 | compiled clauses, bound parameters and scanned columns together are true of a row exactly if each predicate keeps it, and never read a column that was not scanned |
| Query.PushedIsMatches | src/resgraph/query/executor.py:54-79 | where the stored value is of the literal's type, or missing, pushing a predicate down equals evaluating it |
| Query.MisfitExactly | src/resgraph/query/executor.py:54-79 | where it is of another type, whatever the cast makes of it, the two agree if and only if the operator, the two values and the cast value meet a condition decided per pair of types |
| Query.NullIsNotUnequal | src/resgraph/query/planner.py:96-111 | a number tested with != against text is kept by evaluation and dropped by the store |
| Query.FourIsTrue | src/resgraph/query/planner.py:96-111 | a count tested for being true is kept by the store and dropped by evaluation, where the engine casts it to true |
| Query.TextIsFour | src/resgraph/query/planner.py:96-111 | so is a text that reads as the number asked for |
| Query.StateQuery | src/resgraph/cold/queries.py:104-156 | annotating keeps and marks every row, filtering keeps exactly the matching ones; only asked-for columns come back |
| Query.ExecuteComposite | src/resgraph/query/executor.py:150-171 | exactly the rows at reverse distance 1 to depth of which every predicate holds, pushed or residual, or the right refusal |
| Query.ExecuteWorld | src/resgraph/query/executor.py:130-148 | exactly the rows of which every predicate holds, with all columns |
| Query.ExecuteLive | src/resgraph/query/executor.py:111-129 | exactly the live blast radius filtered by every predicate; depths outside 1 to 6 are refused |
| Query.RoutesEvaluate | src/resgraph/query/executor.py:107-171 | on rows whose values fit, both routes decide as evaluating every predicate does |
| Query.RoutesAgree | src/resgraph/query/executor.py:107-171 | asked about now, the live and the as-of route select the same resources, those in reach that every predicate matches |
| Query.FoundIsRow | src/resgraph/query/executor.py:107-171 | everything the live route finds is a row of the reconstructed state |
| Rows.KeysTellApart | src/resgraph/ingest/worker.py:38 | the text key is equal exactly for equal run and sequence, whatever characters a run id has |
| Pipeline.WriteThenRead | src/resgraph/ingest/spool.py:36-51 | a written batch reads back, if no other batch shares its hash |
| Pipeline.RefQueue.Claim | src/resgraph/ingest/spool.py:70-81 | the oldest waiting references, as many as the limit allows, stamped, and no other touched |
| Pipeline.RefQueue.Reclaim | src/resgraph/ingest/spool.py:87-97 | exactly the stale claims come back |
| Pipeline.Sink.Write | src/resgraph/ingest/sink.py:59-70 | conflict-ignoring insert counting exactly the new rows; a crash leaves a prefix |
| Pipeline.Send | src/resgraph/ingest/worker.py:123 | spool before queue: a producer dying in between leaves no reference without its file; its steps are steps of the schedule |
| Pipeline.Flush | src/resgraph/ingest/worker.py:58-61 | a reference leaves the queue only with its rows in the sink; dying earlier leaves it queued; either way the worker took only steps of the schedule |
| Pipeline.Drain | src/resgraph/ingest/worker.py:54-62 | one pass is a run of that worker's steps in the schedule: dying anywhere loses nothing sent and adds nothing foreign; a completed pass reports exactly the rows it added and empties the queue of as many references as it claimed |
| Pipeline.ReplayFromRaw | src/resgraph/ingest/worker.py:65-72 | the rebuilt sink holds one row for every raw event key and counts them |
| Rows.OneMirror | src/resgraph/ingest/sink.py:76-84 | two sinks that mirror one spool are the same table |
| Schedule.TakeKeepsSound | src/resgraph/ingest/spool.py:63-97 | each send, claim, count, insert, ack, report, death and reclaim of any number of workers keeps: sent means queued or landed |
| Schedule.LeavesOnlyLanded | src/resgraph/ingest/worker.py:54-62 | under any schedule a reference that leaves the queue has all its rows in the sink |
| Schedule.EveryScheduleSettles | src/resgraph/ingest/worker.py:54-72 | under any schedule, once every spooled batch was sent, the queue is empty and no pass is under way, the sink equals the rebuild from raw |
| Schedule.ReportsExactly | src/resgraph/ingest/worker.py:54-62 | under any settled schedule, overlapping workers included, the rows the completed passes reported are the distinct event keys plus the rows counted twice less those lost with a dead pass; so they add up if and only if these are as many |
| Schedule.ReportsAlone | src/resgraph/ingest/worker.py:54-62 | with one worker at a time they are at most the distinct event keys, and exactly those if and only if no pass died after an insert that added a row |
| Schedule.DeathUnderReports | src/resgraph/ingest/sink.py:59-70 | one event: a pass inserts it and dies, the next finds it there, and the only report is 0 |
| Schedule.OverlapOverReports | src/resgraph/ingest/sink.py:59-70 | two workers on one stale claim count before either inserts and both report the one row |
| Triage.ParseAndValidate | src/resgraph/analyst/harness.py:153-191 | a report passes if and only if every cited id and claimed nonzero sequence was seen and the abstention flag is what the verdicts imply; a refusal names a problem |
| Triage.Citable | src/resgraph/analyst/harness.py:239-249 | citable from the prompt are the user message and the blocks after the cache breakpoint |
| Triage.Transcript.MarkBreakpoint | src/resgraph/analyst/harness.py:202-215 | one cache mark in all, on the last block, and no content changed |
| Triage.PairedExchange | src/resgraph/analyst/harness.py:329-386 | appending a reply and its answers keeps every tool request answered once, in order, by the next turn |
| Triage.Triager.CheckCeilings | src/resgraph/analyst/harness.py:269-291 | past this point a run is concluding or below its cost ceiling |
| Triage.Triager.AnswerOne | src/resgraph/analyst/harness.py:332-385 | a request is executed exactly if calls, tokens and ceilings allow, and otherwise refused with the run marked degraded |
| Triage.Triager.AnswerTools | src/resgraph/analyst/harness.py:331-386 | every request gets one result with its id, in order |
| Triage.Triager.Turn | src/resgraph/analyst/harness.py:266-401 | one turn appends only; it ends the run with an honest report, or with none after the allowed corrections |
| Triage.DisciplineMeans | src/resgraph/analyst/harness.py:269-333 | whenever a tool ran, tokens were below their limit and no turn had opened at or over the cost ceiling |
| Triage.RunTriage | src/resgraph/analyst/harness.py:218-414 | for every model, tool and clock: bounded turns and tool calls, no tool after a cutoff whose last instruction was given, every request answered once, an only-growing transcript, and a report only if this run saw what it cites |

## Left out

* The stores themselves, drivers, query text, label indexes, partitioning, and grouping by label or in slices: each statement is its effect on maps and sets.
* HTTP, command line, configuration, validation plumbing, metrics and event records.
* The model's words, prompts and skills; JSON and identifier extraction are arbitrary functions of the text.
* Wall clock, sleeps, back-off and percentile windows; a latency or failure rate is an arbitrary standing of a backend.
* Orders used only to make output deterministic (sorting by id, first-seen order of a batch, `ORDER BY`); sorted relationship lists are compared as multisets.
* Distributions of random draws, attribute pools and world sizes: any draw, value and size is possible.
* The initial snapshot generator, and creating an id that is alive, which the code answers with an error after overwriting the resource.
* The aliasing of one resource object from several places: resources are values in a map.
* Ties of inconsistent history rows (same resource and sequence, different content), where the store's pick is arbitrary: the model keeps both.
* Redis trimming of the stream and reads of trimmed entries; several consumers at once.
* A rollback failing with an empty error text, which the event type would refuse.
* The query layer's explain output and the live store's treatment of values of mixed kinds, which is a parameter.
* A spool file half-written by a crash: the code writes it in one call and the model makes that atomic.
* Integer and floating-point precision of attribute values, and NaN: numbers are reals.
* Other writers of a remediated node beyond their effect on the graph, and sequence arbitration between writers, which the code declares out of scope.
* Backends created on first use: the gateway's backends are fixed, with one dispatch state per name; a provider named exactly like an expanded endpoint, which would share its state, is excluded.
* A routing table that changes while one hop is being chosen, and requests served at the same time: after a failed attempt health, standing and budget may become anything, and they stay so until the next attempt.
- Server.Gateway.ServeWithWalk: stops after a number of rounds, and so do `Reopen` and `Relay.Run`, where the code would go on, because in a registry that is not loopless it need not end, as `Walk.Forever` shows.
- Remediation.Remediator.RollbackStep: restoration is stated without other writers, because with them a reported rollback may have lost the race, as `RacedRollback` shows.
- Containment.StreamConsumer.ApplyEntries: takes the poison entries of a batch to be the same at every attempt, as the bound on calls requires; the protocol in Consumer lets every attempt fail or succeed freely.
