# Verified model of the live data platform

A live pipeline takes readings from a source (an OPC UA connector run by Telegraf), sends
them through a Kafka topic, and stores them in a ClickHouse table of its own. A shared pool of
consumer processes moves records from all topics into all tables; a task manager registers,
starts, stops and deletes pipelines; singleton services elect a leader through Redis. This
project models that machinery in Dafny and proves what it promises, and, where it promises more
than it keeps, exactly what it keeps instead.

`dafny verify dfyconfig.toml` checks everything.

## The parts

- **Delivery** (`Delivery`, `DeliverySafety`, `Sink`, `ClickHouse`, `Rows`, `Pool`,
  `PoolSystem`, `PoolRuns`, `Loss`). `Delivery` is a machine over unbounded state: logs, committed offsets, every
  member's assignment, positions and batch in hand, and what was written. Its eighteen events
  (create a topic, append, expire, fetch, handle one partition, commit, rebalance, crash, drain,
  delete, ...) may come in any order. `Rows`, `ClickHouse`, `Sink` and `Pool` are the code
  itself: classes with the loops of the source, proved against specifications. `PoolSystem` puts
  any number of members that run this code beside one store, one repository and the rest of the
  machine, and proves the main results about the store; `PoolRuns` builds runs of that system, and
  `Loss` says what it can lose.
- **Deleting** (`DrainAndDelete`): stopping, draining and deleting a topic, composed with the
  delivery machine.
- **Names** (`Naming`, `Routing`, `CollectionCounter`, `Repository`, `Isolation`): table names,
  topic names and collection numbers, and what they are for: no pipeline's records reach another
  pipeline's table.
- **Connector configuration** (`Quoting`, `Toml`, `NodeIds`, `NodeNames`, `ConnectorConfig`): the
  printers in the task manager against an independent reader of TOML v1.0.0 (section String) and
  of JSON strings (section 7 of RFC 8259), and the connector's own `_config`.
- **Leader lock** (`LeaderLock`): a timed protocol in which GET and EXPIRE, or GET and DELETE,
  are separate events.
- **Lifecycle** (`Lifecycle`, `Controller`): the task manager's requests over a Kubernetes
  runtime that may fail before or after it acts, and the controller's tasks in every
  interleaving.
- **File moves** (`FileMove`): the folder watcher's search for a free name.

Time, the network, randomness and the outcome of every outside call are parameters or
nondeterministic choices. Methods that stand for "others run meanwhile" (`Cluster.Elapse`,
`World.Await`) have a body that does nothing, but their callers know only the contract, which
allows any run.

## Where the code does less than it says

- *"Don't commit this topic (re-read when it's back)"* (`services/consumer_pool/app/main.py:171`).
  Nothing seeks back: the next successful batch of the running member commits past the batch
  that failed. `DeliverySafety.UnconditionalClaimFails` is such a run, `Loss.RecordIsLost` one of
  the whole system in which the record is nowhere in the store, `GapIsLost` shows that every gap is
  lost this way and `Loss.LossExactly` that no topic with commits is exempt, and
  `PoolSystem.AtLeastOnce` is the claim that does hold.
- *"raises only if ClickHouse itself is unreachable"* (`services/consumer_pool/app/sink.py:121`).
  A reading that is an integer beyond the float range raises OverflowError out of `write`;
  `Rows.OverflowsExactly` says exactly when, and `Sink.ClickHouseSink.Write` says exactly what
  escapes.
- *"only one process wins"* (`services/task_manager/common/app_common/leader_lock.py:61-62`) holds
  under a latency bound, and every state that misses the bound can break it
  (`LeaderLock.MissedDeadlineBreaksExclusion`).
- A Normal pipeline whose user id, number and table name give no table name is stored and then
  answered with an error 500 (`services/task_manager/task_manager/app/main.py:165`,
  `Lifecycle.TaskManager.CreatePipeline`).
- A stop that the cluster refuses once answers "Already stopped" ever after
  (`services/task_manager/task_manager/app/main.py:237`), so the producer keeps running and a
  delete then removes its record (`Lifecycle.OrphansSurviveStops`, `RefusedStopThenDelete`).
- The reconcile loop never triggers for a pipeline wanted running and caught in STOPPING, which
  an act would start (`Controller.TriggersMatchActs`); and an act cut short by a crash between
  its first and its last write is never made good by the controller
  (`Controller.AbandonedForGood`, `SettlesExactly`).
- User ids with underscores can share tables (`Naming.UsersCollideExactly`), and a pipeline with
  a custom topic that names another pipeline writes into that one's table
  (`Isolation.IsolatedExactly`).
- `json.dumps` writes characters beyond the basic multilingual plane as surrogate pairs, which
  TOML does not allow; `ConnectorConfig.ConfigRoundTrip` has the exact condition.

## Model

| member | source | states |
|---|---|---|
| DeliverySafety.StepSafe | services/consumer_pool/app/main.py:123-190 | every event, whoever causes it, keeps: all below a committed offset, below a position or below an offset about to be committed is safe or still in hand |
| PoolSystem.NothingElseIsLost | services/consumer_pool/app/main.py:123-190 | in every run of any number of members and partitions, with crashes, rebalances, failed writes, rejected commits and repository changes in any order, each retained record below a committed offset is in its own pipeline's table or dead-lettered in the store, or was in a batch skipped by break or for want of a config |
| PoolSystem.AtLeastOnce | services/consumer_pool/app/main.py:144-190 | if every skipped batch is followed by a crash or reassignment before the member fetches the partition again, each retained record below a committed offset is in its own pipeline's table or dead-lettered in the store, also across rebalances and rejected commits |
| PoolSystem.OwnTableIsUnique | services/consumer_pool/app/main.py:51-66 | if no id is registered twice, the own table is that of the one config the topic names |
| PoolSystem.SystemIsRun | services/consumer_pool/app/main.py:123-190 | every run of the whole system, in which any number of members handle entries as the code does while the rest of the world goes on, is a run of the delivery machine, disciplined if the system's is, and keeps what it counts as written in the right tables of the store |
| PoolSystem.BatchIsSystemRun | services/consumer_pool/app/main.py:137-190 | what `InsertThenCommit` promises for a batch is a run of the system from taking the lock to releasing it, with the code's store, cache and committed offsets at the end |
| DeliverySafety.GapIsLost | services/consumer_pool/app/main.py:167-177 | from every state in which a member is past a retained undelivered record, some run commits past it undelivered |
| DeliverySafety.FailedWriteOpensGap | services/consumer_pool/app/main.py:168-174 | a failed write leaves its member in such a state |
| DeliverySafety.MissingConfigOpensGap | services/consumer_pool/app/main.py:152-154 | and so does a topic without a config |
| DeliverySafety.UnconditionalClaimFails | services/consumer_pool/app/main.py:168-177 | a run from the beginning in which offset 0 is below the committed offset, retained, and delivered nowhere |
| Loss.RecordIsLost | services/consumer_pool/app/main.py:152-177 | for every partition of a topic whose config can have a message written, a run of the whole system from the beginning after which offset 0 is below the committed offset, retained, in no table of a pipeline the topic names and not dead-lettered; one run in which the record met no config, and one in which its write failed |
| Loss.LossExactly | services/consumer_pool/app/main.py:144-190 | over all runs of the whole system: some run loses a record of a partition exactly if the topic names a pipeline with a table and some message can be written under it, so without the discipline the claim fails for everything that can ever be committed |
| DeliverySafety.RevokeWaitsForCommit | services/consumer_pool/app/main.py:69-86 | when rebalances go through the listener, no two members hold one partition and a member that reaches its commit still owns all of it, so the commit can be accepted |
| DeliverySafety.ResumesAtCommitted | services/consumer_pool/app/main.py:113 | after an assignment a member reads on from the committed offset, or from the first retained record if there is none, so a rebalance re-reads exactly what was not committed |
| DrainAndDelete.DeleteDestroysOnlyLaterRecords | services/task_manager/task_manager/app/provisioning.py:86-93 | in every run that lets a request delete its topic, every record the deletion destroys is safe or was appended after the request's last read of the end offsets (after its start, if there was no topic) |
| PoolSystem.DeleteDestroysOnlyStored | services/task_manager/task_manager/app/provisioning.py:86-93 | the same in the store: in every run of the whole system that lets a request delete its topic, every record that goes is in its own table, dead-lettered, expired, appended after the request's last read of the end offsets, or (in undisciplined runs) skipped |
| DrainAndDelete.StopDrainDeleteLosesNothing | services/task_manager/task_manager/app/main.py:310-320 | after any history, stop then drain then delete of the topic destroys safe records only, whatever the pool does meanwhile |
| DrainAndDelete.Cluster.PartitionsFor | services/task_manager/task_manager/app/provisioning.py:80-84 | the topic's partitions at the time of the call, empty ones included |
| DrainAndDelete.Cluster.EndOffsets | services/task_manager/task_manager/app/provisioning.py:88 | the end offsets at the time of the call |
| DrainAndDelete.Cluster.CommittedOffsets | services/task_manager/task_manager/app/provisioning.py:89-90 | the committed offsets at the time of the call, which is later than that of the end offsets |
| DrainAndDelete.WaitForDrain | services/task_manager/task_manager/app/provisioning.py:69-99 | the answer is that of the last poll, which reads the end offsets anew, after as many seconds as there were polls before it, and of all the topic; true exactly if every partition was empty or had by then a committed offset that reached its end, and then everything below the ends is safe; false also means that the deadline has passed; fewer than timeout + 2 polls |
| DrainAndDelete.Cluster.DeleteTopic | services/task_manager/task_manager/app/provisioning.py:102-113 | the topic goes with its partitions; a call that raises may have been applied |
| Pool.PipelineRegistry.Get | services/consumer_pool/app/main.py:51-66 | a hit changes nothing, a miss is a lookup under the id the topic names and is remembered, a failed lookup is not remembered |
| Pool.GroupConsumer.Commit | services/consumer_pool/app/main.py:185-190 | an accepted commit sets exactly the given offsets, a rejected one nothing |
| Pool.OffsetsExactly | services/consumer_pool/app/main.py:176-177 | the offsets to commit are those of exactly the written partitions, each one past its last message |
| Pool.ConsumerPool.MakeRecords | services/consumer_pool/app/main.py:156-166 | one record per message in order, with its coordinates and raw text, and its JSON value or, failing that, the text |
| Pool.ConsumerPool.HandleEntry | services/consumer_pool/app/main.py:149-177 | an entry is passed over exactly if it is no longer assigned, skipped exactly if its topic does not resolve, and otherwise written under its config, failed exactly if that write raised |
| Pool.EntryLeaves | services/consumer_pool/app/main.py:149-177 | an entry only adds rows, only to the table of its topic's config, and a written one is wholly there or dead-lettered |
| Pool.EntryTells | services/consumer_pool/app/main.py:156-177 | every new row is in the table of its topic's config, has the coordinates of one of the entry's messages and is what `to_row` makes of it; every new dead letter names that config's pipeline and table, and has the coordinates, the reason and the first 64000 characters of one of the messages |
| Pool.ConsumerPool.InsertThenCommit | services/consumer_pool/app/main.py:144-190 | every entry in turn is handled so, up to exactly the first write that raises; then exactly the written entries' offsets are committed, all or none |
| Sink.ClickHouseSink.EnsureTable | services/consumer_pool/app/sink.py:108-118 | a known table costs nothing, a new one exists afterwards, exactly the tables the server confirmed become known, and no row or letter is touched |
| Sink.ClickHouseSink.MapAll | services/consumer_pool/app/sink.py:127-138 | rows, kept records and dead records are exactly those the verdicts of `to_row` say, in order; it stops exactly at a mapping that overflows |
| Sink.VerdictsSplit | services/consumer_pool/app/sink.py:131-138 | kept and dead records together are the batch, each once |
| Sink.ClickHouseSink.InsertIndividually | services/consumer_pool/app/sink.py:170-183 | every record is inserted or reported, each once if a raised insert was not applied, and by acceptability alone if acceptance depends on the row |
| Sink.ClickHouseSink.WriteRows | services/consumer_pool/app/sink.py:140-153 | the same for the batch insert followed, when it fails, by the isolation path |
| Sink.ClickHouseSink.DeadLetterAll | services/consumer_pool/app/sink.py:185-199 | one letter per dead record in order, with coordinates, table and truncated payload, none if the insert raised and was not applied |
| Sink.ClickHouseSink.Write | services/consumer_pool/app/sink.py:120-163 | only this pipeline's table and the dead letters grow, with this batch's records: every row is what `to_row` made of the record it comes from, every letter has its record's coordinates, payload and reason; a write that returns has every record in at least one of the two and counts that add up; each exactly once when a raised insert was not applied; exactly the acceptable rows in arrival order when acceptance depends on the row; the overflow and the invalid name escape exactly when they occur, and a server error never if the server is reachable |
| Sink.BatchIsRecordByRecord | services/consumer_pool/app/sink.py:140-153 | what the table gets of a batch is what it gets of its parts, so the batch insert refines the record-by-record path |
| Sink.BadRecordChangesNothing | services/consumer_pool/app/sink.py:145-153 | a record that does not map or is refused, anywhere in a batch, changes nothing of what the table gets from the others |
| Rows.FillRow | services/consumer_pool/app/rows.py:94-102 | the loop over the schema computes the row, column by column |
| Rows.ExactlyDeclaredColumns | services/consumer_pool/app/rows.py:74-102 | every accepted message yields exactly the declared columns; the five computed ones hold the instant that the timestamp says, the ingestion time, the reading and the pipeline id, every other its field, else its tag, else the type's default |
| Rows.AcceptedExactly | services/consumer_pool/app/rows.py:27-102 | a message becomes a row exactly if it is an object, its tags and its fields are each absent, falsy or an object, its timestamp is plausible, and its reading is no integer beyond the float range; text, boolean, list, object and missing readings are all accepted |
| Rows.EventTimeExactly | services/consumer_pool/app/rows.py:27-57 | a timestamp is accepted exactly if it is a number, or a string that `float` reads, of milliseconds from 2001 on, before the year 10000 and at most a day ahead, and then the event time is that instant |
| Rows.UndeclaredKeysAreIgnored | services/consumer_pool/app/rows.py:85-102 | keys of a message that the schema does not declare make no difference |
| Rows.OverflowsExactly | services/consumer_pool/app/rows.py:60-68 | the uncaught overflow happens exactly for an otherwise good message whose reading is an integer beyond the float range |
| Rows.FloatOverflowIs | services/consumer_pool/app/rows.py:66-67 | the limit is 2 to the 1024 less 2 to the 970, the first integer that `float` does not round to a finite number |
| Rows.AcceptedAgainLater | services/consumer_pool/app/sink.py:176-179 | a record accepted once is accepted by the later second call, with the same row but for the ingestion time |
| Rows.WrongUnitsAreRejected | services/consumer_pool/app/rows.py:27-57 | no plausible instant sent as a float in seconds, microseconds or nanoseconds is accepted; in milliseconds it is, exactly if a datetime can hold it |
| Rows.WrongIntegerUnitsAreRejected | services/consumer_pool/app/rows.py:27-57 | the same for integers: none that is plausible as seconds, microseconds or nanoseconds is accepted |
| Rows.IntegerTimestampAccepted | services/consumer_pool/app/rows.py:35-57 | which integer timestamps are accepted, exactly |
| ClickHouse.Manager.TryOnce | services/consumer_pool/app/clickhouse_manager.py:66-78 | one attempt applies the statement at most once, and exactly once if it succeeds |
| ClickHouse.Manager.Execute | services/consumer_pool/app/clickhouse_manager.py:62-84 | at most max_retries + 1 attempts, of which all but the last failed with a retryable error, and the last too only if none is left; one sleep between any two, the first the base, every other twice the one before and clipped |
| ClickHouse.NextBackoff | services/consumer_pool/app/clickhouse_manager.py:82 | clipping each doubling is clipping the doubled base |
| ClickHouse.DoublingIs | services/consumer_pool/app/clickhouse_manager.py:79-82 | the i-th of such sleeps is the base doubled i times and clipped, the first one the base itself |
| ClickHouse.SleepIsBoundedByBase | services/consumer_pool/app/clickhouse_manager.py:79-82 | total sleep is at most base times 2^max_retries - 1 |
| ClickHouse.SleepIsBoundedByMax | services/consumer_pool/app/clickhouse_manager.py:79-82 | total sleep is at most max_retries times the maximum |
| Routing.TopicRoundTrip | services/consumer_pool/app/main.py:37-58 | a pipeline's default topic is matched back to its id |
| Routing.RoutedExactly | services/consumer_pool/app/main.py:37-58 | a topic is matched to an id exactly if it is pipeline.<id>.events, or that with a newline after it |
| Naming.DecodeInvertsCompose | services/task_manager/common/app_common/ch_naming.py:60 | a decoder recovers user, collection number and table name from every table name of a user without underscores |
| Naming.AcceptedExactly | services/task_manager/common/app_common/ch_naming.py:36-66 | which inputs have a table name, and which: users of letters, digits, underscores and dashes, numbers from 1 on, tables of letters, digits and underscores that do not begin with a digit, either text with a newline at its end or not, and at most 128 characters in all |
| Naming.IdentifierIsInjective | services/task_manager/common/app_common/ch_naming.py:36-66 | accepted inputs of users without underscores share a table name only if they are equal |
| Naming.TablesCollideExactly | services/task_manager/common/app_common/ch_naming.py:36-66 | two accepted inputs share a table name exactly if they are equal, or the longer user id is the shorter one with _collection_ and its number and some z behind, and z goes on as the shorter one's table name does |
| Naming.UsersCollideExactly | services/task_manager/common/app_common/ch_naming.py:36-66 | two different accepted users can share a table exactly if the longer id is the shorter one, _collection_, a positive number, and nothing or an underscore and the front of a table name, and leaves room for a shortest table |
| Repository.PipelineRepository.CreatePipeline | services/task_manager/common/app_common/redis_repo.py:28-40 | a new id gets its config and a fresh state; an existing one is refused and nothing changes |
| Repository.PipelineRepository.DeletePipeline | services/task_manager/common/app_common/redis_repo.py:102-104 | config and state go, the counters stay |
| Repository.PipelineRepository.UpdateState | services/task_manager/common/app_common/redis_repo.py:77-100 | exactly the given fields of one pipeline's state change; without a state it raises and changes nothing |
| Repository.PipelineRepository.MaxUsed | services/task_manager/common/app_common/redis_repo.py:58-61 | the largest collection number among the user's configs, or 0 if there are none |
| Repository.PipelineRepository.NextCollectionNumber | services/task_manager/common/app_common/redis_repo.py:50-62 | one more than the counter, or than the largest number in use if there is none yet, and the counter remembers it |
| CollectionCounter.StepKeepsInv | services/task_manager/common/app_common/redis_repo.py:50-62 | between any two Redis commands of any calls: the counter is its seed plus what was handed out, and the seed covers every number that was there all along |
| CollectionCounter.NumbersIncrease | services/task_manager/common/app_common/redis_repo.py:50-62 | in every interleaving the numbers handed to one user increase in INCR order |
| CollectionCounter.NumbersAreFresh | services/task_manager/common/app_common/redis_repo.py:50-62 | they exceed every number the user's configs had from before his first call until the counter was set |
| CollectionCounter.NoNumberIsSkipped | services/task_manager/common/app_common/redis_repo.py:50-62 | in every interleaving a user's numbers go up by one each, from 1 or from one more than a number that a pipeline of that same user has had |
| CollectionCounter.OldPipelinesKeepTheirNumbers | services/task_manager/common/app_common/redis_repo.py:50-70 | no number handed out is that of a pipeline older than the counter and never deleted |
| Isolation.CountersKeepApart | services/task_manager/common/app_common/redis_repo.py:50-62 | pipelines that each got their number from their own INCR, in any interleaving, differ in user or number |
| Isolation.TablesDiffer | services/task_manager/common/app_common/ch_naming.py:36-66 | different registered pipelines have different tables |
| Isolation.LookupsAgree | services/consumer_pool/app/main.py:51-66 | the cache always holds the config of the pipeline its topic names |
| Isolation.EntryIsPoolStep | services/consumer_pool/app/main.py:144-177 | an entry as the code handles it adds rows only where an agreeing cache routes them |
| Isolation.PipelinesAreIsolated | services/consumer_pool/app/main.py:40-66 | in every sequence of such steps of any number of members, a row in one pipeline's table that came from another's topic means they are the same pipeline |
| Isolation.SystemIsIsolated | services/consumer_pool/app/main.py:123-190 | the same in every run of the whole system, for ids that are not registered twice |
| Isolation.IsolatedExactly | services/consumer_pool/app/main.py:55-60 | whatever topics pipelines are given, a pipeline's rows stay out of all other tables in every run of the whole system exactly if its topic names no registered pipeline, itself, one without a table, or one under which no message can be inserted; otherwise a run from the beginning, with fetch, write and commit, leaves a row of its topic in the other's table |
| LeaderLock.MutualExclusion | services/task_manager/common/app_common/leader_lock.py:85-139 | if no leader's GET and EXPIRE pass TTL after its last refresh, at most one process is leader and the key holds its identity |
| LeaderLock.ReleaseDeletesOwnKey | services/task_manager/common/app_common/leader_lock.py:103-109 | under the same bound a release deletes its own key only |
| LeaderLock.TimelyExactly | services/task_manager/common/app_common/leader_lock.py:47-49 | a run from the beginning meets the bound exactly if no leader's GET and EXPIRE are through 10 seconds or more after the renewal was due, 5 seconds after the last |
| LeaderLock.LeaderStays | services/task_manager/common/app_common/leader_lock.py:127-139 | within the bound a leader that neither crashes nor releases stays leader and keeps the key, over a run of any length and whatever others do |
| LeaderLock.LongReign | services/task_manager/common/app_common/leader_lock.py:127-139 | the bound can be met for any time: a process alone is leader after n renewals, 5n seconds later |
| LeaderLock.MissedDeadlineBreaksExclusion | services/task_manager/common/app_common/leader_lock.py:127-139 | every state with a leader whose deadline passes lets a second process become leader beside it |
| LeaderLock.LateDeleteTakesAnothersKey | services/task_manager/common/app_common/leader_lock.py:103-108 | a release that is late between GET and DELETE deletes the new leader's key |
| LeaderLock.TakeoverBound | services/task_manager/common/app_common/leader_lock.py:47-49 | from every reachable state, also when the holder hangs with its flag still set, and however late any other process is: while one process waits and attempts when due, the key is set anew or a live one extended within 18 seconds, TTL + RETRY, of the last refresh |
| LeaderLock.RefreshMeans | services/task_manager/common/app_common/leader_lock.py:113-139 | setting the key makes its process the leader that holds it, extending leaves the holder, and both give it a full TTL |
| LeaderLock.Lock.TryAcquire | services/task_manager/common/app_common/leader_lock.py:113-120 | succeeds exactly if the key is absent or expired, and then sets the flag, the key for 15 seconds and the renewal 5 seconds ahead; otherwise the next attempt is 3 seconds ahead |
| LeaderLock.Lock.RenewOnce | services/task_manager/common/app_common/leader_lock.py:127-139 | leadership is given up exactly if the key is no longer this process's; within the bound it is kept, and the key lives for 15 seconds more whatever others did in between |
| LeaderLock.Lock.Release | services/task_manager/common/app_common/leader_lock.py:96-109 | gives up leadership, and deletes the key exactly if the GET found this process's identity; within the bound it does, and the key that goes is its own |
| Quoting.CharReads | services/task_manager/common/app_common/telegraf_config.py:52 | every escaped character reads back as itself in JSON, and in TOML unless it is astral |
| Quoting.QuoteReadsInJson | services/task_manager/common/app_common/sources.py:54 | every string json.dumps writes reads back as itself in JSON |
| Quoting.QuoteReadsInToml | services/task_manager/common/app_common/telegraf_config.py:52 | ... and in TOML exactly if it has no astral character; otherwise it is not TOML |
| Toml.ValueReads | services/task_manager/common/app_common/telegraf_config.py:44-52 | a printed string, boolean, integer or nested list reads back as itself; exactly with an astral character inside it is not TOML |
| NodeIds.ReadJoin | connectors/opcua/connector.py:150 | a joined list of node ids is read back as itself exactly if every id is non-empty, trimmed and comma-free |
| NodeIds.ReadPadded | connectors/opcua/connector.py:150 | ids with any white space around them are read without it, and nothing else of them goes |
| NodeNames.NamesRoundTrip | services/task_manager/common/app_common/sources.py:54 | the node names come back from their JSON text, whatever their characters |
| ConnectorConfig.NamesAreAscii | services/task_manager/common/app_common/sources.py:54 | the names' JSON text is ASCII, so nesting it in TOML and in the environment loses nothing |
| ConnectorConfig.LaunchIs | services/task_manager/common/app_common/sources.py:59 | the connector starts with exactly the printed variables, each split at its first =, if every value passes; one that does not keeps it from starting |
| ConnectorConfig.ConfigureReads | connectors/opcua/connector.py:148-171 | the connector refuses an empty endpoint or an empty id list, and otherwise gets every option back but for the ids' own round trip |
| ConnectorConfig.ConfiguresExactly | connectors/opcua/connector.py:148-171 | which environments the connector accepts, exactly: an endpoint, an id, and, where given, names and an interval that read |
| ConnectorConfig.ConfigureDefaults | connectors/opcua/connector.py:148-171 | what it takes for variables that are missing |
| ConnectorConfig.ConfigRoundTrip | services/task_manager/common/app_common/sources.py:46-59 | printing, TOML, the environment and `_config` together give back the pipeline's options exactly if the endpoint and the ids are there, the ids are plain, and no direct string has an astral or NUL character |
| Lifecycle.KubernetesRuntime.ApplyDeployment | services/task_manager/common/app_common/runtime/kubernetes_runtime.py:167-181 | one replica afterwards unless the call was refused, also when it raises |
| Lifecycle.KubernetesRuntime.ScaleToZero | services/task_manager/common/app_common/runtime/kubernetes_runtime.py:183-192 | no replica afterwards unless the call was refused; a missing Deployment counts as scaled down |
| Lifecycle.KubernetesRuntime.StartLivePipeline | services/task_manager/common/app_common/runtime/kubernetes_runtime.py:107-112 | the producer's name if the Deployment was applied |
| Lifecycle.KubernetesRuntime.StopLivePipeline | services/task_manager/common/app_common/runtime/kubernetes_runtime.py:114-116 | scales the pipeline's own Deployment down |
| Lifecycle.KubernetesRuntime.RestartLivePipeline | services/task_manager/common/app_common/runtime/kubernetes_runtime.py:118-126 | applies, then rolls; it may raise after the replica count has become 1 |
| Lifecycle.TaskManager.ChooseNumber | services/task_manager/task_manager/app/main.py:131-132 | the requested collection number, or else the user's next one |
| Lifecycle.TaskManager.CreatePipeline | services/task_manager/task_manager/app/main.py:120-165 | 400, 409, 502, 500 or created, each exactly when; every field of what is stored, with the defaults, and, unless the request brings one, the user's next collection number; a failed provisioning of a live pipeline, also for want of a valid table name, leaves no config, and a Normal one without a valid table name is stored and answered 500 |
| Lifecycle.TaskManager.StartPipeline | services/task_manager/task_manager/app/main.py:194-222 | a live pipeline wanted stopped is started exactly if the runtime call comes back: then it is wanted running and RUNNING with one replica, its own producer and no error; otherwise the answer is 502 and it is wanted stopped and FAILED with the error; one wanted running is left alone |
| Lifecycle.TaskManager.StopPipeline | services/task_manager/task_manager/app/main.py:226-253 | a live pipeline wanted running is stopped exactly if the runtime call comes back: then it is wanted stopped and STOPPED with no replica, producer or error; otherwise the answer is 502 and it is wanted stopped and FAILED; one wanted stopped is left alone |
| Lifecycle.TaskManager.RestartPipeline | services/task_manager/task_manager/app/main.py:257-282 | in every state, a live pipeline is wanted running and RUNNING with one replica, its own producer and no error afterwards exactly if both runtime calls come back; otherwise the answer is 502 and it is FAILED with the error and wanted as before |
| Lifecycle.TaskManager.DeletePipeline | services/task_manager/task_manager/app/main.py:303-321 | stop, drain, topic, record, in this order, with the answer for each that fails; the record goes only if all before it went well, and then all of the topic that went was safe or appended after the drain last read the end offsets |
| Lifecycle.TaskManager.DrainAndDeleteTopic | services/task_manager/task_manager/app/main.py:316-319 | the topic goes only after a drain that came back true, and takes only records with it that are safe or were appended after the drain last read the end offsets |
| Lifecycle.OthersKeep | services/task_manager/task_manager/app/main.py:194-321 | a request leaves every other pipeline's config, state and replicas alone |
| Lifecycle.LifecycleInvariant | services/task_manager/task_manager/app/main.py:120-321 | after every sequence of requests, whatever the runtime did: RUNNING means wanted running with one replica, STOPPED means wanted stopped with none, and nothing is left STARTING or STOPPING |
| Lifecycle.OrphansAppearExactly | services/task_manager/task_manager/app/main.py:194-282 | a producer that no record wants appears exactly through a start or restart that took effect and still raised, or a stop that was refused |
| Lifecycle.StopEndsProducer | services/task_manager/task_manager/app/main.py:236-253 | a stop or delete that comes back well has left no replica exactly if the pipeline was no such orphan |
| Lifecycle.RunStopEndsProducer | services/task_manager/task_manager/app/main.py:194-321 | after any run in which no request orphaned a pipeline, stopping or deleting it ends its producer |
| Lifecycle.OrphansSurviveStops | services/task_manager/task_manager/app/main.py:237-238 | no sequence of stops and deletes ever scales an orphan down |
| Lifecycle.RefusedStopThenDelete | services/task_manager/task_manager/app/main.py:310-320 | create, start, one refused stop and a delete that succeeds leave a running producer without a record |
| Controller.TriggersMatchActs | services/task_manager/controller/app/main.py:34-36 | the reconcile triggers fire exactly where an act would do something, except for a pipeline wanted running and STOPPING |
| Controller.SettledIsQuiet | services/task_manager/controller/app/main.py:146-174 | whatever the runtime does, what an act leaves, also half-way, needs no further act |
| Controller.Controller.Act | services/task_manager/controller/app/main.py:135-174 | one call exactly if the pipeline is wanted running and neither RUNNING nor STARTING, or wanted stopped and RUNNING or STARTING; then STARTING with the producer, or STOPPED without one, or, if the call raised, wanted stopped and FAILED with the message |
| Controller.Controller.Reconcile | services/task_manager/controller/app/main.py:111-132 | one pass spawns acts for exactly the unlocked live pipelines that are wanted running and CREATED, STOPPED or FAILED, or wanted stopped and RUNNING or STARTING |
| Controller.AtMostOneCall | services/task_manager/controller/app/main.py:85-174 | with any number of tasks in any interleaving and any number of crashes, at most one runtime call; then neither acts nor triggers do anything |
| Controller.SettlesExactly | services/task_manager/controller/app/main.py:135-174 | in every run with any number of tasks and crashes, once tasks were spawned and all are through since the last crash: untouched if there was nothing to do, exactly where a single act leaves it if no crash fell between an act's first and last write, and where the first write left it otherwise |
| Controller.MarkedIsSettled | services/task_manager/controller/app/main.py:149-174 | the first write and the settled state differ, but for a start that returned the producer already stored |
| Controller.RunsEnd | services/task_manager/controller/app/main.py:135-174 | without new tasks a run takes no more steps than the tasks have left |
| Controller.SomeTaskCanStep | services/task_manager/controller/app/main.py:141 | no deadlock: while a task is unfinished, some task can take a step |
| Controller.QuietIsLeftAlone | services/task_manager/controller/app/main.py:142-164 | no number of tasks and restarts moves a pipeline on which an act has nothing to do |
| Controller.CrashAfterMark | services/task_manager/controller/app/main.py:151-153 | from every pipeline that needs an act, a run that ends in a crash between the status write and the runtime call |
| Controller.AbandonedForGood | services/task_manager/controller/app/main.py:149-174 | after a crash between an act's first and last write, before or after the runtime call, no continuation changes the stored state or calls the runtime again |
| FileMove.NumberedIsInjective | services/task_manager/task_manager/app/folder_watcher.py:296-298 | different numbers give different alternative names |
| FileMove.NumberedIs | services/task_manager/task_manager/app/folder_watcher.py:298 | the number goes between the file's stem and its extension |
| FileMove.NumberedPlainIs | services/task_manager/task_manager/app/folder_watcher.py:298 | and behind a name without an extension |
| FileMove.NumberedKeepsSuffix | services/task_manager/task_manager/app/folder_watcher.py:298 | an alternative name keeps the suffix if there is one, and has the number for a suffix if there is none |
| FileMove.ChooseTarget | services/task_manager/task_manager/app/folder_watcher.py:293-298 | the search stops within one probe more than the folder has files, at the first free name |
| FileMove.Move | services/task_manager/task_manager/app/folder_watcher.py:291-303 | the file arrives under a name that was free, or nothing changes |
| FileMove.CopiesMove | services/task_manager/task_manager/app/folder_watcher.py:300 | a move neither loses nor duplicates any content |
| FileMove.MoveAll | services/task_manager/task_manager/app/folder_watcher.py:291-303 | any number of moves by one process, with files arriving in between also under names used before, overwrites no file in the destination, and of every content there are as many files as before and as arrived |

## Left out

- PoolSystem.AtLeastOnce: holds for disciplined runs only, because the code does not enforce the discipline; `GapIsLost` shows that without it the claim is false.
- PoolSystem.NothingElseIsLost: a deleted topic is not created again, here and in AtLeastOnce, so the logs of a topic that is re-created, which start again at offset 0, are not modelled.
- DrainAndDelete.DeleteDestroysOnlyLaterRecords: nor is it here, or in DeleteDestroysOnlyStored, WaitForDrain and the requests built on it: `CreateTopic` needs a name that was not deleted before.
- PoolSystem.SystemIsRun: members interleave entry by entry; within one entry's write the statements of other members do not come in between. Tables and dead letters only grow, so where a record is does not depend on that order.
- DrainAndDelete.WaitForDrain: the broker answers every call; a drain call that raises ends the request with an error and destroys nothing.
- LeaderLock.TakeoverBound: that one waiting process neither crashes nor is late from then on; nothing can be said for a service with no process left. A GET of the holder's own key whose EXPIRE comes late can extend another's, which counts as extended.
- LeaderLock.Lock.Release: that the key which goes is its own holds within the latency bound only; the other case is `LateDeleteTakesAnothersKey`. A renewal EXPIRE that reaches Redis after its task was cancelled is not modelled.
- CollectionCounter.NumbersIncrease: numbers that a create request brings itself are not counter-assigned and may coincide with others.
- Repository.PipelineRepository.UpdateState: one atomic step; the source reads and writes in two commands, so concurrent updates can be lost. The same holds for CreatePipeline.
- Repository.PipelineRepository.NextCollectionNumber: one uninterrupted call; `CollectionCounter` has the interleavings.
- Isolation.SystemIsIsolated: for default topics, counter-assigned numbers, user ids without underscores, and ids not created again while a pool process lives (a stale cache would route to the old table).
- Lifecycle.LifecycleInvariant: requests complete one after the other; two replicas serving the same pipeline at once, and publishing of state events, are not modelled.
- Controller.SettlesExactly: nobody else writes the pipeline's state meanwhile.
- ConnectorConfig.ConfigRoundTrip: the process inherits no variable of its own with these names, names are objects of strings without lone surrogates, integers are plain decimal text, and the timeout stays text (float parsing is not modelled). Telegraf's own substitution of variables in its config is not modelled.
- Toml.ValueReads: floats, comments, dates, multi-line and literal strings are outside the reader.
- Rows.ExactlyDeclaredColumns: numbers are reals, so rounding and the microsecond grid of datetimes are not modelled; `str()` of a value stays symbolic.
- ClickHouse.Manager.Execute: the client object and its lock are one flag; `CREATE DATABASE` is not modelled beside `CREATE TABLE`.
- FileMove.Move: a file that a sender replaces in the watched folder before it is moved is the sender's own loss; another process creating the chosen name between the check and the move is not modelled.
- Clocks that step back: a record on the isolation path could then be rejected the second time.
- JSON decoding of payload bytes, digit limits and recursion limits.
- The watchdog, whose restarts can alternate with the controller's starts without end.
- The Docker runtime, template and manifest rendering, HTTP handlers, metrics and logging.
- OPC UA sessions, the health endpoint and the file-system observer.
- Compacted topics and transactional gaps: a fetched batch is a contiguous run of offsets.
